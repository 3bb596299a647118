/** The message handler: `on_room_message`, `add_expense`, the category
    listing's reply and the `names in response order` mapping of
    `list_categories`.

    The chat transport and the ledger's HTTP API are not modelled; what they
    contribute is passed in: the room state and the event, the listing the
    ledger returned (or its failure), and the response the ledger gives to a
    POST of a given request body. */
module Bot {
  import opened Wrappers
  import opened Text
  import opened Commands
  import opened Ledger

  const GeneralExpense: string := "General expense"
  const Pong: string := "pong"
  const HelpText: string :=
    "Available commands:\n - " + AddUsage + "\n - " + CategoriesCmd + "\n - " + HelpCmd + "\n - " + PingCmd
  const CategoriesHeader: string := "Categories:"
  const BulletSeparator: string := "\n - "
  const CategoriesFailure: string := "Failed to list categories"
  const TimestampFailure: string := "Failed to extract message timestamp"
  const ReadBodyFailure: string := "failed to read response body"
  /** U+2705 WHITE HEAVY CHECK MARK */
  const SuccessReaction: string := "\U{2705}"
  /** U+274C CROSS MARK */
  const FailureReaction: string := "\U{274C}"
  /** `StatusCode::OK` */
  const StatusOk: nat := 200

  /** The part of the configuration the handler reads. */
  datatype Config = Config(sourceAccountId: int)

  /** The room an event arrives in; only a joined room is served. */
  datatype Room = Joined | Left | Invited

  /** A plain-text message body, or any other kind of message. */
  datatype MessageType = TextMessage(body: string) | OtherMessage

  /** An incoming room message: its id, the local part of the sender's user
      id, the server timestamp (absent when it cannot be converted to a
      system time) and the content. */
  datatype Event<D> = Event(eventId: string, sender: string, timestamp: Option<D>, msgtype: MessageType)

  /** What the ledger answers to a POST: a status and a body (absent when the
      body cannot be read), or a transport error. */
  datatype HttpResponse = Response(status: nat, body: Option<string>) | TransportError(message: string)

  /** Why `add_expense` failed; the handler only logs it. */
  datatype AddError = Rejected(status: nat, body: string) | RequestFailed(message: string)

  /** The listing the ledger returns for `GET categories`. */
  datatype Attributes = Attributes(name: string)
  datatype Category = Category(id: string, attributes: Attributes)
  datatype CategoryList = CategoryList(data: seq<Category>)

  /** The one observable result of handling a message. `Aborted` is an error
      returned before anything was sent (only logged by the caller). */
  datatype Outcome = Ignored | Aborted(reason: string) | Replied(text: string) | Reacted(eventId: string, reaction: string)

  // ---------------------------------------------------------------------
  // The categories reply.

  /** `list_categories`: the names of the categories, in response order. */
  function CategoryNames(list: CategoryList): (names: seq<string>)
    ensures |names| == |list.data|
    ensures forall i :: 0 <= i < |names| ==> names[i] == list.data[i].attributes.name
  {
    seq(|list.data|, i requires 0 <= i < |list.data| => list.data[i].attributes.name)
  }

  /** One bullet line per name, each introduced by a line break. */
  function Bullets(names: seq<string>): string {
    if names == [] then [] else BulletSeparator + names[0] + Bullets(names[1..])
  }

  /** The reply to `!categories`: the header, then one bullet per name. */
  function CategoriesText(names: seq<string>): string {
    CategoriesHeader + Bullets(names)
  }

  /** Lines 251-257: the reply built with `push_str`, joining the names. */
  method CategoriesReply(categories: seq<string>) returns (response: string)
    ensures response == CategoriesText(categories)
  {
    response := "";
    response := response + CategoriesHeader;
    if |categories| > 0 {
      response := response + BulletSeparator;
      response := response + Join(categories, BulletSeparator);
      JoinBullets(categories);
    }
  }

  /** Joining with the separator is the bullet list minus its first separator. */
  lemma {:induction false} JoinBullets(names: seq<string>)
    requires names != []
    ensures Bullets(names) == BulletSeparator + Join(names, BulletSeparator)
  {
    if |names| > 1 {
      JoinBullets(names[1..]);
    } else {
      assert names[1..] == [];
    }
  }

  /** The reply is exactly the header for an empty list, and otherwise the
      header, one separator and the names joined by the separator. */
  lemma CategoriesTextShape(names: seq<string>)
    ensures names == [] ==> CategoriesText(names) == "Categories:"
    ensures names != [] ==> CategoriesText(names) == "Categories:\n - " + Join(names, "\n - ")
  {
    if names != [] { JoinBullets(names); }
  }

  /** The lines of a bullet list, introduced by `" - "`. */
  function BulletLines(names: seq<string>): (lines: seq<string>)
    ensures |lines| == |names|
    ensures forall i :: 0 <= i < |names| ==> lines[i] == " - " + names[i]
  {
    seq(|names|, i requires 0 <= i < |names| => " - " + names[i])
  }

  /** When no name contains a line break, the reply's lines are the header and
      one `" - name"` line per name, in order: the names can be read back. */
  lemma CategoriesLines(names: seq<string>)
    requires forall i :: 0 <= i < |names| ==> '\n' !in names[i]
    ensures Split(CategoriesText(names), '\n') == [CategoriesHeader] + BulletLines(names)
  {
    LinesAfter(CategoriesHeader, names);
  }

  lemma {:induction false} LinesAfter(head: string, names: seq<string>)
    requires '\n' !in head
    requires forall i :: 0 <= i < |names| ==> '\n' !in names[i]
    ensures Split(head + Bullets(names), '\n') == [head] + BulletLines(names)
    decreases names
  {
    if names == [] {
      assert head + Bullets(names) == head;
      assert IndexOf(head, '\n') == |head| && head[..|head|] == head;
    } else {
      var line := " - " + names[0];
      var rest := line + Bullets(names[1..]);
      assert '\n' !in line;
      assert Bullets(names) == BulletSeparator + names[0] + Bullets(names[1..]);
      assert BulletSeparator + names[0] == ['\n'] + line;
      assert head + Bullets(names) == head + ['\n'] + rest;
      SplitAt(head, '\n', rest);
      LinesAfter(line, names[1..]);
      BulletLinesCons(names);
    }
  }

  lemma BulletLinesCons(names: seq<string>)
    requires names != []
    ensures BulletLines(names) == [" - " + names[0]] + BulletLines(names[1..])
  {
    var l := BulletLines(names);
    var r := [" - " + names[0]] + BulletLines(names[1..]);
    assert |l| == |r|;
    forall i | 0 <= i < |l| ensures l[i] == r[i] {
      if i > 0 { assert r[i] == BulletLines(names[1..])[i - 1]; }
    }
  }

  // ---------------------------------------------------------------------
  // Adding an expense.

  /** Lines 300-309: the request body for one expense. */
  function ExpenseBody<A, D>(
    category: string, amount: A, username: string, timestamp: D, config: Config,
    note: Option<string>, tags: seq<string>): (body: Transactions<A, D>)
    ensures |body.transactions| == 1
    ensures var t := body.transactions[0];
      && t.transactionType == WithdrawalType
      && t.categoryName == category && t.amount == amount && t.date == timestamp
      && t.description == category + " by " + username
      && t.sourceId == config.sourceAccountId && t.destinationName == GeneralExpense
      && t.notes == note && t.tags == tags + [username]
  {
    NewTransactions(Withdrawal(category, amount, timestamp, config.sourceAccountId,
                               GeneralExpense, username, note, tags))
  }

  /** `add_expense`: posts the withdrawal; success is exactly a 200 answer,
      every other status and every transport error is a failure. */
  function AddExpense<A, D>(
    category: string, amount: A, username: string, timestamp: D, config: Config,
    note: Option<string>, tags: seq<string>,
    post: Transactions<A, D> -> HttpResponse): (r: Result<(), AddError>)
    ensures var response := post(ExpenseBody(category, amount, username, timestamp, config, note, tags));
      && (r.Ok? <==> response.Response? && response.status == StatusOk)
      && (response.TransportError? ==> r == Err(RequestFailed(response.message)))
      && (response.Response? && response.status != StatusOk ==>
            r == Err(Rejected(response.status,
                              if response.body.Some? then response.body.value else ReadBodyFailure)))
  {
    var transaction := ExpenseBody(category, amount, username, timestamp, config, note, tags);
    match post(transaction)
    case Response(status, body) =>
      if status != StatusOk then
        Err(Rejected(status, match body case Some(text) => text case None => ReadBodyFailure))
      else Ok(())
    case TransportError(e) => Err(RequestFailed(e))
  }

  // ---------------------------------------------------------------------
  // The handler.

  /** The messages the handler acts on: text in the joined room starting with `!`. */
  predicate Addressed<D>(room: Room, event: Event<D>) {
    room.Joined? && event.msgtype.TextMessage? && StartsWith(event.msgtype.body, '!')
  }

  /** Lines 238-284: the answer to a parsed command. */
  function Route<A, D>(
    cmd: Cmd<A>, event: Event<D>, timestamp: D, config: Config,
    listing: Result<CategoryList, string>,
    post: Transactions<A, D> -> HttpResponse): (o: Outcome)
    ensures o.Reacted? <==> cmd.Add?
    ensures cmd.Add? ==>
      var a := cmd.args;
      var response := post(ExpenseBody(a.category, a.amount, event.sender, timestamp, config, a.note, a.tags));
      o == Reacted(event.eventId, if response.Response? && response.status == StatusOk then SuccessReaction else FailureReaction)
    ensures cmd == Ping ==> o == Replied("pong")
    ensures cmd == Help ==> o == Replied(HelpText)
    ensures cmd == Categories ==>
      o == if listing.Ok? then Replied(CategoriesText(CategoryNames(listing.value))) else Replied("Failed to list categories")
  {
    match cmd
    case Ping => Replied(Pong)
    case Help => Replied(HelpText)
    case Categories =>
      (match listing
       case Ok(list) => Replied(CategoriesText(CategoryNames(list)))
       case Err(_) => Replied(CategoriesFailure))
    case Add(AddArgs(category, amount, note, tags)) =>
      match AddExpense(category, amount, event.sender, timestamp, config, note, tags, post)
      case Ok(_) => Reacted(event.eventId, SuccessReaction)
      case Err(_) => Reacted(event.eventId, FailureReaction)
  }

  /** `on_room_message`. `listing` is what `list_categories` returns (any
      transport or decoding failure is its `Err`); `post` is the ledger's
      answer to a request body. */
  function OnRoomMessage<A, D>(
    room: Room, event: Event<D>, config: Config,
    parseAmount: string -> Option<A>,
    listing: Result<CategoryList, string>,
    post: Transactions<A, D> -> HttpResponse): (o: Outcome)
    ensures o.Ignored? <==> !Addressed(room, event)
    ensures o.Aborted? <==> Addressed(room, event) && event.timestamp.None?
    ensures Addressed(room, event) && event.timestamp.Some? ==>
      var cmd := ParseCmd(event.msgtype.body, parseAmount);
      o == if cmd.Err? then Replied(cmd.error)
           else Route(cmd.value, event, event.timestamp.value, config, listing, post)
    ensures o.Reacted? ==> o.eventId == event.eventId && o.reaction in {SuccessReaction, FailureReaction}
  {
    if !room.Joined? then Ignored
    else
      match event.msgtype
      case OtherMessage => Ignored
      case TextMessage(content) =>
        if !StartsWith(content, '!') then Ignored
        else
          match event.timestamp
          case None => Aborted(TimestampFailure)
          case Some(timestamp) =>
            match ParseCmd(content, parseAmount)
            case Err(e) => Replied(e)
            case Ok(cmd) => Route(cmd, event, timestamp, config, listing, post)
  }

  /** A reaction is the answer to exactly the addressed, time-stamped
      messages that parse as `!add`; every other message gets a reply, is
      ignored or aborts, and none is answered twice. */
  lemma ReactsOnlyToAdd<A, D>(
    room: Room, event: Event<D>, config: Config, parseAmount: string -> Option<A>,
    listing: Result<CategoryList, string>, post: Transactions<A, D> -> HttpResponse)
    ensures var o := OnRoomMessage(room, event, config, parseAmount, listing, post);
      o.Reacted? <==>
        && Addressed(room, event) && event.timestamp.Some?
        && var cmd := ParseCmd(event.msgtype.body, parseAmount); cmd.Ok? && cmd.value.Add?
  {
  }

  /** The handler's answer to `!add <args>` that parses: a reaction on the
      message, a check mark exactly when the ledger answers the record built
      from the parsed arguments with 200. */
  lemma AddReaction<A, D>(
    room: Room, event: Event<D>, config: Config, parseAmount: string -> Option<A>,
    listing: Result<CategoryList, string>, post: Transactions<A, D> -> HttpResponse,
    args: string)
    requires Addressed(room, event) && event.timestamp.Some?
    requires event.msgtype.body == AddCmd + " " + args
    requires ParseAdd(args, parseAmount).Ok?
    ensures var a := ParseAdd(args, parseAmount).value;
      var response := post(ExpenseBody(a.category, a.amount, event.sender, event.timestamp.value, config, a.note, a.tags));
      OnRoomMessage(room, event, config, parseAmount, listing, post) ==
        Reacted(event.eventId, if response.Response? && response.status == StatusOk then SuccessReaction else FailureReaction)
  {
    var a := ParseAdd(args, parseAmount).value;
    AddCommandParses(args, parseAmount);
    Dispatches(room, event, config, parseAmount, listing, post, Add(a));
  }

  /** A parsed command is answered by the route stage. */
  lemma Dispatches<A, D>(
    room: Room, event: Event<D>, config: Config, parseAmount: string -> Option<A>,
    listing: Result<CategoryList, string>, post: Transactions<A, D> -> HttpResponse,
    cmd: Cmd<A>)
    requires Addressed(room, event) && event.timestamp.Some?
    requires ParseCmd(event.msgtype.body, parseAmount) == Ok(cmd)
    ensures OnRoomMessage(room, event, config, parseAmount, listing, post) ==
      Route(cmd, event, event.timestamp.value, config, listing, post)
  {
  }

  /** The record posted for `!add <args>` that parses: well-formed tags
      followed by the sender, a non-empty trimmed category, and the fixed
      type, source and destination. */
  lemma AddRecord<A, D>(event: Event<D>, timestamp: D, config: Config, parseAmount: string -> Option<A>, args: string)
    requires ParseAdd(args, parseAmount).Ok?
    ensures var a := ParseAdd(args, parseAmount).value;
      var t := ExpenseBody(a.category, a.amount, event.sender, timestamp, config, a.note, a.tags).transactions[0];
      && t.tags == a.tags + [event.sender]
      && (forall i :: 0 <= i < |t.tags| - 1 ==> IsLabel(t.tags[i]))
      && t.categoryName != [] && IsTrimmed(t.categoryName)
      && t.transactionType == WithdrawalType && t.destinationName == GeneralExpense
      && t.sourceId == config.sourceAccountId
  {
    ParseAddLabels(args, parseAmount);
    RecordOf(ParseAdd(args, parseAmount).value, event.sender, timestamp, config);
  }

  lemma RecordOf<A, D>(a: AddArgs<A>, sender: string, timestamp: D, config: Config)
    requires a.category != [] && IsTrimmed(a.category)
    requires forall i :: 0 <= i < |a.tags| ==> IsLabel(a.tags[i])
    ensures var t := ExpenseBody(a.category, a.amount, sender, timestamp, config, a.note, a.tags).transactions[0];
      && t.tags == a.tags + [sender]
      && (forall i :: 0 <= i < |t.tags| - 1 ==> IsLabel(t.tags[i]))
      && t.categoryName != [] && IsTrimmed(t.categoryName)
      && t.transactionType == WithdrawalType && t.destinationName == GeneralExpense
      && t.sourceId == config.sourceAccountId
  {
    var t := ExpenseBody(a.category, a.amount, sender, timestamp, config, a.note, a.tags).transactions[0];
    assert forall i :: 0 <= i < |t.tags| - 1 ==> t.tags[i] == a.tags[i];
  }
}
