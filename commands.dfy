/** The command grammar: `Cmd::parse` and `AddArgs::parse`.

    The amount is parsed by Rust's `f64::from_str`, whose floating-point
    semantics are not modelled: it is the parameter `parseAmount`, a partial
    function from the amount token to a value of the abstract type `A`. */
module Commands {
  import opened Wrappers
  import opened Text

  const AddCmd: string := "!add"
  const CategoriesCmd: string := "!categories"
  const HelpCmd: string := "!help"
  const PingCmd: string := "!ping"

  const AddUsage: string := "!add <Category>: <Amount> [Note] [#Tag...]"
  const InvalidArgs: string := "Invalid arguments."

  /** The reply for a missing `:`, an empty category or an empty amount. */
  const InvalidArgsMessage: string := InvalidArgs + " Usage: " + AddUsage

  /** The arguments of `!add`. */
  datatype AddArgs<A> = AddArgs(category: string, amount: A, note: Option<string>, tags: seq<string>)

  /** The four commands. */
  datatype Cmd<A> = Ping | Help | Add(args: AddArgs<A>) | Categories

  /** A note or tag as the grammar hands it out: non-empty, trimmed, free of `#`. */
  predicate IsLabel(s: string) {
    s != [] && IsTrimmed(s) && '#' !in s
  }

  /** `.map(|part| part.trim()).filter(|part| !part.is_empty())`: the
      non-empty trimmed parts, in order. */
  function CleanParts(parts: seq<string>): (r: seq<string>)
    ensures |r| <= |parts|
    ensures forall i :: 0 <= i < |r| ==> r[i] != [] && IsTrimmed(r[i])
  {
    if parts == [] then []
    else
      var t := Trim(parts[0]);
      (if t == [] then [] else [t]) + CleanParts(parts[1..])
  }

  /** Lines 392-406: the trimmed remainder is cut at its first space into the
      amount and the tail; a blank tail is absent. Without a space the amount
      is the untrimmed remainder, as in the source. */
  function SplitAmount(rest: string): (r: (string, Option<string>))
    ensures r.1.Some? ==> r.1.value != [] && IsTrimmed(r.1.value)
  {
    match SplitOnce(Trim(rest), ' ')
    case Some((amount, afterSpace)) =>
      var trimmed := Trim(afterSpace);
      (amount, if trimmed == [] then None else Some(trimmed))
    case None => (rest, None)
  }

  /** Lines 408-429: the note and the tags the tail yields. The requires is
      what `SplitAmount` guarantees; it is exactly what keeps the source's
      `unwrap()` and `[1..]` from panicking. */
  function NoteAndTags(tail: Option<string>): (r: (Option<string>, seq<string>))
    requires tail.Some? ==> tail.value != [] && IsTrimmed(tail.value)
    ensures r.0 == NoteOf(TailString(tail)) && r.1 == TagsOf(TailString(tail))
  {
    var hasNote := tail.Some? && !StartsWith(tail.value, '#');
    var textParts := if tail.Some? then Some(CleanParts(Split(tail.value, '#'))) else None;
    var note :=
      match textParts
      case None => None
      case Some(parts) => if hasNote then (if |parts| > 0 then Some(parts[0]) else None) else None;
    var tags :=
      if hasNote then
        NoteHeadsParts(tail.value);
        textParts.value[1..]
      else
        match textParts
        case None => []
        case Some(parts) => parts;
    TailShape(tail);
    (note, tags)
  }

  /** Lines 431-434: one leading `$` is removed. */
  function StripDollar(s: string): (r: string)
    ensures StartsWith(s, '$') ==> s == "$" + r
    ensures !StartsWith(s, '$') ==> r == s
  {
    if StartsWith(s, '$') then s[1..] else s
  }

  /** `AddArgs::parse`. */
  function ParseAdd<A>(args: string, parseAmount: string -> Option<A>): (r: Result<AddArgs<A>, string>)
    ensures ':' !in args ==> r == Err(InvalidArgsMessage)
    ensures r.Ok? ==> r.value.category != [] && IsTrimmed(r.value.category)
  {
    match SplitOnce(args, ':')
    case None => Err(InvalidArgsMessage)
    case Some((category, rest)) => ParseFields(category, rest, parseAmount)
  }

  /** `AddArgs::parse` once the input is cut at its first `:` into the
      category and the rest. */
  function ParseFields<A>(category: string, rest: string, parseAmount: string -> Option<A>): (r: Result<AddArgs<A>, string>)
    ensures r.Ok? ==> r.value.category == Trim(category) != []
  {
    var (amount, tail) := SplitAmount(rest);
    var (note, tags) := NoteAndTags(tail);
    var amountStr := StripDollar(Trim(amount));
    var category := Trim(category);
    if category == [] || amountStr == [] then Err(InvalidArgsMessage)
    else
      match parseAmount(amountStr)
      case None => Err("Invalid amount: " + amountStr)
      case Some(value) => Ok(AddArgs(category, value, note, tags))
  }

  /** `Cmd::parse`: the verb is the text before the first space, the
      arguments the text after it. */
  function ParseCmd<A>(input: string, parseAmount: string -> Option<A>): (r: Result<Cmd<A>, string>)
    ensures r.Ok? && !r.value.Add? ==> input[..IndexOf(input, ' ')] in {HelpCmd, PingCmd, CategoriesCmd}
    ensures r.Ok? && r.value.Add? ==> input[..IndexOf(input, ' ')] == AddCmd
  {
    var cmdEnd := IndexOf(input, ' ');
    var cmdStr := input[..cmdEnd];
    var cmdArgs := if cmdEnd == |input| then "" else input[cmdEnd + 1..];
    if cmdStr == HelpCmd then Ok(Help)
    else if cmdStr == PingCmd then Ok(Ping)
    else if cmdStr == CategoriesCmd then Ok(Categories)
    else if cmdStr == AddCmd then
      match ParseAdd(cmdArgs, parseAmount)
      case Ok(a) => Ok(Add(a))
      case Err(e) => Err(e)
    else Err("Unknown command: " + cmdStr)
  }

  // ---------------------------------------------------------------------
  // The grammar field by field: where each field of `!add` comes from.

  /** The category: the text before the first `:`, trimmed. */
  function CategoryText(args: string): string {
    Trim(args[..IndexOf(args, ':')])
  }

  /** The trimmed text after the first `:`. */
  function Remainder(args: string): string
    requires ':' in args
  {
    Trim(args[IndexOf(args, ':') + 1..])
  }

  /** The amount token: the remainder up to its first space (all of it when
      there is none), trimmed, with one leading `$` removed. */
  function AmountToken(args: string): string
    requires ':' in args
  {
    AmountOf(Remainder(args))
  }

  /** The free-text tail: the remainder after its first space, trimmed;
      empty when there is no space. */
  function TailText(args: string): string
    requires ':' in args
  {
    TailOf(Remainder(args))
  }

  /** The amount token of a remainder `r`. */
  function AmountOf(r: string): string {
    StripDollar(Trim(r[..IndexOf(r, ' ')]))
  }

  /** The tail of a remainder `r`. */
  function TailOf(r: string): string {
    if ' ' in r then Trim(r[IndexOf(r, ' ') + 1..]) else []
  }

  /** The tail string of an optional tail; absent is empty. */
  function TailString(tail: Option<string>): string {
    if tail.Some? then tail.value else []
  }

  /** The note: the text before the first `#`, trimmed, when that is not empty. */
  function NoteOf(tail: string): Option<string> {
    var first := Trim(Split(tail, '#')[0]);
    if first == [] then None else Some(first)
  }

  /** The tags: the non-empty trimmed segments after the first `#`, in order. */
  function TagsOf(tail: string): seq<string> {
    CleanParts(Split(tail, '#')[1..])
  }

  // ---------------------------------------------------------------------
  // Lemmas.

  /** When a note is present (the trimmed tail does not start with `#`), the
      cleaned parts are not empty and the first of them is the first
      segment: the source's `unwrap()` and `[1..]` cannot panic. */
  lemma NoteHeadsParts(tail: string)
    requires tail != [] && IsTrimmed(tail) && !StartsWith(tail, '#')
    ensures var segs := Split(tail, '#');
      && Trim(segs[0]) != []
      && CleanParts(segs) == [Trim(segs[0])] + CleanParts(segs[1..])
  {
    var segs := Split(tail, '#');
    var i := IndexOf(tail, '#');
    assert i > 0;
    assert segs[0][0] == tail[0];
  }

  /** An empty tail has no note and no tags. */
  lemma EmptyTail()
    ensures NoteOf([]) == None && TagsOf([]) == []
  {
    var segs := Split([], '#');
    assert IndexOf([], '#') == 0;
    assert segs == [[]];
    assert Trim([]) == [];
    assert segs[1..] == [];
  }

  /** The tail computation agrees with `NoteOf` and `TagsOf`. */
  lemma TailShape(tail: Option<string>)
    requires tail.Some? ==> tail.value != [] && IsTrimmed(tail.value)
    ensures var t := TailString(tail);
      && (tail.None? ==> NoteOf(t) == None && TagsOf(t) == [])
      && (tail.Some? && StartsWith(t, '#') ==>
            NoteOf(t) == None && TagsOf(t) == CleanParts(Split(t, '#')))
      && (tail.Some? && !StartsWith(t, '#') ==>
            var parts := CleanParts(Split(t, '#'));
            |parts| > 0 && NoteOf(t) == Some(parts[0]) && TagsOf(t) == parts[1..])
  {
    var t := TailString(tail);
    var segs := Split(t, '#');
    if tail.None? {
      EmptyTail();
    } else if StartsWith(t, '#') {
      assert IndexOf(t, '#') == 0;
      assert segs[0] == [];
      HeadTail(segs);
    } else {
      NoteHeadsParts(t);
    }
  }

  /** Cleaning distributes over concatenation: order is preserved. */
  lemma {:induction false} CleanPartsAppend(a: seq<string>, b: seq<string>)
    ensures CleanParts(a + b) == CleanParts(a) + CleanParts(b)
  {
    if a == [] {
      assert a + b == b;
    } else {
      var t := Trim(a[0]);
      var head := if t == [] then [] else [t];
      calc {
        CleanParts(a + b);
        { ConcatTail(a, b); }
        head + CleanParts(a[1..] + b);
        { CleanPartsAppend(a[1..], b); }
        head + (CleanParts(a[1..]) + CleanParts(b));
        { Associative(head, CleanParts(a[1..]), CleanParts(b)); }
        (head + CleanParts(a[1..])) + CleanParts(b);
      }
    }
  }

  /** A string is a cleaned part exactly when it is the non-empty trim of
      some part. */
  lemma CleanPartsMembers(parts: seq<string>, t: string)
    ensures t in CleanParts(parts) <==> t != [] && exists j :: 0 <= j < |parts| && t == Trim(parts[j])
  {
    if t in CleanParts(parts) {
      CleanPartsSource(parts, t);
    }
    if t != [] && exists j :: 0 <= j < |parts| && t == Trim(parts[j]) {
      var j :| 0 <= j < |parts| && t == Trim(parts[j]);
      TrimInCleanParts(parts, j);
    }
  }

  /** Every cleaned part is the trim of some part. */
  lemma {:induction false} CleanPartsSource(parts: seq<string>, t: string)
    requires t in CleanParts(parts)
    ensures t != [] && exists j :: 0 <= j < |parts| && t == Trim(parts[j])
  {
    CleanPartsCons(parts);
    if t != Trim(parts[0]) {
      CleanPartsSource(parts[1..], t);
      var j :| 0 <= j < |parts[1..]| && t == Trim(parts[1..][j]);
      assert parts[1..][j] == parts[j + 1];
    }
  }

  /** The non-empty trim of any part is among the cleaned parts. */
  lemma {:induction false} TrimInCleanParts(parts: seq<string>, j: int)
    requires 0 <= j < |parts| && Trim(parts[j]) != []
    ensures Trim(parts[j]) in CleanParts(parts)
  {
    CleanPartsCons(parts);
    if j > 0 {
      assert parts[1..][j - 1] == parts[j];
      TrimInCleanParts(parts[1..], j - 1);
    }
  }

  /** Cleaning parts free of `#` gives labels free of `#`. */
  lemma {:induction false} CleanPartsLabels(parts: seq<string>)
    requires forall i :: 0 <= i < |parts| ==> '#' !in parts[i]
    ensures forall i :: 0 <= i < |CleanParts(parts)| ==> IsLabel(CleanParts(parts)[i])
  {
    if parts != [] {
      CleanPartsLabels(parts[1..]);
      var t := Trim(parts[0]);
      assert '#' !in t;
      assert CleanParts(parts) == (if t == [] then [] else [t]) + CleanParts(parts[1..]);
    }
  }

  /** Every tag, and the note when present, is a label. */
  lemma TailLabels(tail: string)
    ensures NoteOf(tail).Some? ==> IsLabel(NoteOf(tail).value)
    ensures forall i :: 0 <= i < |TagsOf(tail)| ==> IsLabel(TagsOf(tail)[i])
  {
    var segs := Split(tail, '#');
    assert '#' !in segs[0];
    assert forall i :: 0 <= i < |segs[1..]| ==> '#' !in segs[1..][i] by {
      forall i | 0 <= i < |segs[1..]| ensures '#' !in segs[1..][i] { assert segs[1..][i] == segs[i + 1]; }
    }
    CleanPartsLabels(segs[1..]);
  }

  /** A tail without `#` is all note and no tags. */
  lemma TailWithoutHash(tail: string)
    requires tail != [] && IsTrimmed(tail) && '#' !in tail
    ensures NoteOf(tail) == Some(tail) && TagsOf(tail) == []
  {
    assert IndexOf(tail, '#') == |tail|;
    assert tail[..|tail|] == tail;
  }

  /** A tail that starts with `#` has no note, and its tags are all its
      non-empty trimmed segments. */
  lemma TailStartsWithHash(tail: string)
    requires StartsWith(tail, '#')
    ensures NoteOf(tail) == None
    ensures TagsOf(tail) == CleanParts(Split(tail, '#'))
  {
    var segs := Split(tail, '#');
    assert IndexOf(tail, '#') == 0;
    HeadTail(segs);
  }

  /** `AddArgs::parse` on every input: the errors, in the order the source
      checks them, and on success the fields the grammar describes. */
  lemma ParseAddOutcome<A>(args: string, parseAmount: string -> Option<A>)
    ensures ':' !in args ==> ParseAdd(args, parseAmount) == Err(InvalidArgsMessage)
    ensures ':' in args && (CategoryText(args) == [] || AmountToken(args) == []) ==>
      ParseAdd(args, parseAmount) == Err(InvalidArgsMessage)
    ensures ':' in args && CategoryText(args) != [] && AmountToken(args) != [] ==>
      ParseAdd(args, parseAmount) ==
        match parseAmount(AmountToken(args))
        case None => Err("Invalid amount: " + AmountToken(args))
        case Some(v) => Ok(AddArgs(CategoryText(args), v, NoteOf(TailText(args)), TagsOf(TailText(args))))
  {
    if ':' in args {
      var i := IndexOf(args, ':');
      var rest := args[i + 1..];
      assert SplitOnce(args, ':') == Some((args[..i], rest));
      AmountAndTail(rest);
    }
  }

  /** `SplitAmount` cuts the trimmed remainder at its first space. */
  lemma AmountAndTail(rest: string)
    ensures StripDollar(Trim(SplitAmount(rest).0)) == AmountOf(Trim(rest))
    ensures TailString(SplitAmount(rest).1) == TailOf(Trim(rest))
  {
    var t := Trim(rest);
    var j := IndexOf(t, ' ');
    if ' ' in t {
      var tail := Trim(t[j + 1..]);
      assert SplitAmount(rest) == (t[..j], if tail == [] then None else Some(tail)) by {
        assert SplitOnce(t, ' ') == Some((t[..j], t[j + 1..]));
      }
      assert TailOf(t) == tail;
      assert TailString(SplitAmount(rest).1) == tail;
    } else {
      assert SplitAmount(rest) == (rest, None);
      assert t[..j] == t;
      assert TailOf(t) == [];
    }
  }

  /** Any parse success carries a trimmed non-empty category and label-shaped
      note and tags. */
  lemma ParseAddLabels<A>(args: string, parseAmount: string -> Option<A>)
    requires ParseAdd(args, parseAmount).Ok?
    ensures var a := ParseAdd(args, parseAmount).value;
      && a.category != [] && IsTrimmed(a.category)
      && (a.note.Some? ==> IsLabel(a.note.value))
      && forall i :: 0 <= i < |a.tags| ==> IsLabel(a.tags[i])
  {
    ParseAddOutcome(args, parseAmount);
    TailLabels(TailText(args));
  }

  /** `Cmd::parse` on a verb without spaces, a space and any arguments: the
      verb alone decides the command, the arguments matter only to `!add`,
      and any other verb is unknown. */
  lemma ParseCmdByVerb<A>(verb: string, args: string, parseAmount: string -> Option<A>)
    requires ' ' !in verb
    ensures var r := ParseCmd(verb + " " + args, parseAmount);
      && (verb == HelpCmd ==> r == Ok(Help))
      && (verb == PingCmd ==> r == Ok(Ping))
      && (verb == CategoriesCmd ==> r == Ok(Categories))
      && (verb == AddCmd ==> r == AsAdd(ParseAdd(args, parseAmount)))
      && (verb !in {HelpCmd, PingCmd, CategoriesCmd, AddCmd} ==> r == Err("Unknown command: " + verb))
  {
    VerbAndArguments(verb, args);
  }

  /** `Cmd::parse` on a verb without spaces and nothing after it: the
      arguments of `!add` are empty. */
  lemma ParseCmdVerbAlone<A>(verb: string, parseAmount: string -> Option<A>)
    requires ' ' !in verb
    ensures var r := ParseCmd(verb, parseAmount);
      && (verb == HelpCmd ==> r == Ok(Help))
      && (verb == PingCmd ==> r == Ok(Ping))
      && (verb == CategoriesCmd ==> r == Ok(Categories))
      && (verb == AddCmd ==> r == AsAdd(ParseAdd("", parseAmount)))
      && (verb !in {HelpCmd, PingCmd, CategoriesCmd, AddCmd} ==> r == Err("Unknown command: " + verb))
  {
    assert IndexOf(verb, ' ') == |verb| && verb[..|verb|] == verb;
  }

  /** `!add ` followed by arguments the `!add` grammar accepts is that command. */
  lemma AddCommandParses<A>(args: string, parseAmount: string -> Option<A>)
    requires ParseAdd(args, parseAmount).Ok?
    ensures ParseCmd(AddCmd + " " + args, parseAmount) == Ok(Add(ParseAdd(args, parseAmount).value))
  {
    AddVerb(args, parseAmount);
  }

  /** `!add `, then arguments: the result of `AddArgs::parse` on them. */
  lemma AddVerb<A>(args: string, parseAmount: string -> Option<A>)
    ensures ParseCmd(AddCmd + " " + args, parseAmount) == AsAdd(ParseAdd(args, parseAmount))
  {
    VerbAndArguments(AddCmd, args);
  }

  /** A verb without spaces, a space and the arguments: the cut at the first
      space gives back both. */
  lemma VerbAndArguments(verb: string, args: string)
    requires ' ' !in verb
    ensures var input := verb + " " + args;
      && IndexOf(input, ' ') == |verb| && |verb| < |input|
      && input[..|verb|] == verb && input[|verb| + 1..] == args
  {
    var input := verb + " " + args;
    IndexOfAt(verb, ' ', args);
    assert input[..|verb|] == verb && input[|verb| + 1..] == args;
  }

  /** The `Cmd` result for a parsed `!add`. */
  function AsAdd<A>(r: Result<AddArgs<A>, string>): Result<Cmd<A>, string> {
    match r
    case Ok(a) => Ok(Add(a))
    case Err(e) => Err(e)
  }

  /** `!add` with no arguments at all is an argument error. */
  lemma AddWithoutArguments<A>(parseAmount: string -> Option<A>)
    ensures ParseCmd(AddCmd, parseAmount) == Err(InvalidArgsMessage)
  {
    ParseCmdVerbAlone(AddCmd, parseAmount);
  }

  // ---------------------------------------------------------------------
  // The canonical form of `!add` arguments, and the parser reading it back.

  /** The tags written out, each as ` #tag`. */
  function TagsText(tags: seq<string>): string {
    if tags == [] then [] else " #" + tags[0] + TagsText(tags[1..])
  }

  /** The fields the canonical form can carry: a category without `:` that
      is not blank, an amount token that is trimmed, has no space and does
      not start with `$` unless a `$` is written before it, and label-shaped
      note and tags. */
  predicate Renderable(category: string, token: string, dollar: bool, note: Option<string>, tags: seq<string>) {
    && ':' !in category && Trim(category) != []
    && token != [] && IsTrimmed(token) && ' ' !in token
    && (!dollar ==> !StartsWith(token, '$'))
    && (note.Some? ==> IsLabel(note.value))
    && (forall i :: 0 <= i < |tags| ==> IsLabel(tags[i]))
  }

  /** The tail after the amount: the note, then the tags each introduced by
      `#` and separated by a space. */
  function RenderedTail(note: Option<string>, tags: seq<string>): string {
    if note.Some? then note.value + TagsText(tags)
    else if tags == [] then []
    else "#" + tags[0] + TagsText(tags[1..])
  }

  /** The amount as written: the token, after a `$` when `dollar` holds. */
  function AmountText(token: string, dollar: bool): string {
    (if dollar then "$" else []) + token
  }

  /** The amount, then a space and the tail when there is one. */
  function FieldsText(amount: string, tail: string): string {
    amount + (if tail == [] then [] else " " + tail)
  }

  /** `<category>: [$]<amount>[ <tail>]`, the form of the usage line. */
  function RenderAdd(category: string, token: string, dollar: bool, note: Option<string>, tags: seq<string>): string {
    category + ": " + FieldsText(AmountText(token, dollar), RenderedTail(note, tags))
  }

  /** Appending rendered labels keeps a clean end clean, and gives one. */
  lemma {:induction false} TagsTextEnd(x: string, tags: seq<string>)
    requires EndsClean(x) || tags != []
    requires forall i :: 0 <= i < |tags| ==> IsLabel(tags[i])
    ensures EndsClean(x + TagsText(tags))
    decreases |tags|
  {
    if tags == [] {
      assert x + TagsText(tags) == x;
    } else {
      var y := x + " #" + tags[0];
      assert x + TagsText(tags) == y + TagsText(tags[1..]);
      assert y[|y| - 1] == tags[0][|tags[0]| - 1];
      TagsTextEnd(y, tags[1..]);
    }
  }

  /** Splitting a labelled head followed by rendered tags on `#` gives the
      head (up to one trailing space) and then exactly the tags. */
  lemma {:induction false} SplitTags(head: string, tags: seq<string>)
    requires IsTrimmed(head) && '#' !in head
    requires forall i :: 0 <= i < |tags| ==> IsLabel(tags[i])
    ensures var segs := Split(head + TagsText(tags), '#');
      Trim(segs[0]) == head && CleanParts(segs[1..]) == tags
    decreases |tags|
  {
    if tags == [] {
      assert head + TagsText(tags) == head;
      SplitWithout(head, '#');
    } else {
      SplitTags(tags[0], tags[1..]);
      SplitTagsCons(head, tags);
    }
  }

  /** The inductive step of `SplitTags`: its conclusion for the tags after
      the first, with the first tag as head, gives it for all the tags. */
  lemma SplitTagsCons(head: string, tags: seq<string>)
    requires IsTrimmed(head) && '#' !in head && tags != [] && tags[0] != []
    requires var rest := Split(tags[0] + TagsText(tags[1..]), '#');
      Trim(rest[0]) == tags[0] && CleanParts(rest[1..]) == tags[1..]
    ensures var segs := Split(head + TagsText(tags), '#');
      Trim(segs[0]) == head && CleanParts(segs[1..]) == tags
  {
    var segs := Split(head + TagsText(tags), '#');
    var rest := Split(tags[0] + TagsText(tags[1..]), '#');
    SplitTagsStep(head, tags);
    assert Trim(segs[0]) == head by { TrimTrailingSpace(head); }
    calc {
      CleanParts(segs[1..]);
      CleanParts(rest);
      { CleanPartsCons(rest); }
      [tags[0]] + CleanParts(rest[1..]);
      [tags[0]] + tags[1..];
      { HeadTail(tags); }
      tags;
    }
  }

  /** One rendered tag: the piece before its `#` and the rest. */
  lemma SplitTagsStep(head: string, tags: seq<string>)
    requires '#' !in head && tags != []
    ensures var segs := Split(head + TagsText(tags), '#');
      segs[0] == head + " " && segs[1..] == Split(tags[0] + TagsText(tags[1..]), '#')
  {
    var x := tags[0] + TagsText(tags[1..]);
    assert head + TagsText(tags) == (head + " ") + ['#'] + x;
    SplitAt(head + " ", '#', x);
  }

  /** Cleaning the first part and then the rest. */
  lemma CleanPartsCons(parts: seq<string>)
    requires parts != []
    ensures CleanParts(parts) == (if Trim(parts[0]) == [] then [] else [Trim(parts[0])]) + CleanParts(parts[1..])
  {
  }

  /** The rendered note and tags: a space and the trimmed tail (nothing when
      both are absent), which the grammar reads back as that note and those tags. */
  lemma TailRoundTrip(note: Option<string>, tags: seq<string>)
    requires note.Some? ==> IsLabel(note.value)
    requires forall i :: 0 <= i < |tags| ==> IsLabel(tags[i])
    ensures var t := RenderedTail(note, tags);
      IsTrimmed(t) && NoteOf(t) == note && TagsOf(t) == tags
  {
    if note.Some? {
      NoteTags(note.value, tags);
    } else if tags == [] {
      EmptyTail();
    } else {
      BareTags(tags);
    }
  }

  /** A note followed by rendered tags ends where the last label ends, and
      is read back as that note and those tags. */
  lemma NoteTags(note: string, tags: seq<string>)
    requires IsLabel(note)
    requires forall i :: 0 <= i < |tags| ==> IsLabel(tags[i])
    ensures var t := note + TagsText(tags);
      IsTrimmed(t) && NoteOf(t) == Some(note) && TagsOf(t) == tags
  {
    var t := note + TagsText(tags);
    TagsTextEnd(note, tags);
    SplitTags(note, tags);
    assert t[0] == note[0];
  }

  /** Tags with no note before them: the tail starts with `#`, ends where
      the last tag ends, and is read back as no note and those tags. */
  lemma {:induction false} BareTags(tags: seq<string>)
    requires tags != []
    requires forall i :: 0 <= i < |tags| ==> IsLabel(tags[i])
    ensures var t := "#" + tags[0] + TagsText(tags[1..]);
      IsTrimmed(t) && NoteOf(t) == None && TagsOf(t) == tags
  {
    var t := "#" + tags[0] + TagsText(tags[1..]);
    TagsTextEnd("#" + tags[0], tags[1..]);
    assert t[0] == '#';
    AsciiWhitespace('#');
    BareTagsSplit(tags);
    assert IsTrimmed([]);
  }

  lemma BareTagsSplit(tags: seq<string>)
    requires tags != []
    requires forall i :: 0 <= i < |tags| ==> IsLabel(tags[i])
    ensures var t := "#" + tags[0] + TagsText(tags[1..]);
      Split(t, '#')[0] == [] && CleanParts(Split(t, '#')[1..]) == tags
  {
    var x := tags[0] + TagsText(tags[1..]);
    var rest := Split(x, '#');
    assert "#" + tags[0] + TagsText(tags[1..]) == [] + ['#'] + x;
    SplitAt([], '#', x);
    SplitTags(tags[0], tags[1..]);
    CleanPartsCons(rest);
    HeadTail(tags);
  }

  /** The canonical form round-trips: the parser gives back the trimmed
      category, the parsed amount token, the note and the tags. The requires
      are the conjuncts of `Renderable`. */
  lemma RenderAddParses<A>(
    category: string, token: string, dollar: bool, note: Option<string>, tags: seq<string>,
    parseAmount: string -> Option<A>, v: A)
    requires ':' !in category && Trim(category) != []
    requires token != [] && IsTrimmed(token) && ' ' !in token
    requires !dollar ==> !StartsWith(token, '$')
    requires note.Some? ==> IsLabel(note.value)
    requires forall i :: 0 <= i < |tags| ==> IsLabel(tags[i])
    requires parseAmount(token) == Some(v)
    ensures ParseAdd(RenderAdd(category, token, dollar, note, tags), parseAmount) ==
      Ok(AddArgs(Trim(category), v, note, tags))
  {
    RenderedParts(category, token, dollar, note, tags);
    ParseAddFields(RenderAdd(category, token, dollar, note, tags), parseAmount);
  }

  /** Where the grammar finds each field of the canonical form. */
  lemma RenderedParts(category: string, token: string, dollar: bool, note: Option<string>, tags: seq<string>)
    requires Renderable(category, token, dollar, note, tags)
    ensures var s := RenderAdd(category, token, dollar, note, tags);
      && ':' in s && CategoryText(s) == Trim(category) && AmountToken(s) == token
      && NoteOf(TailText(s)) == note && TagsOf(TailText(s)) == tags
  {
    var amount := AmountText(token, dollar);
    var t := RenderedTail(note, tags);
    AmountTextShape(token, dollar);
    TailRoundTrip(note, tags);
    AmountCut(amount, t);
    RemainderOf(category, FieldsText(amount, t));
  }

  /** The written amount is trimmed, free of spaces, and gives back the token
      once its `$` is stripped. */
  lemma AmountTextShape(token: string, dollar: bool)
    requires token != [] && IsTrimmed(token) && ' ' !in token
    requires !dollar ==> !StartsWith(token, '$')
    ensures var amount := AmountText(token, dollar);
      && amount != [] && IsTrimmed(amount) && ' ' !in amount && EndsClean(amount)
      && StripDollar(amount) == token
  {
    var amount := AmountText(token, dollar);
    assert amount[|amount| - 1] == token[|token| - 1];
    if dollar {
      assert amount[1..] == token;
    }
  }

  /** `ParseAddOutcome` for an input whose fields are all present. */
  lemma ParseAddFields<A>(args: string, parseAmount: string -> Option<A>)
    requires ':' in args && CategoryText(args) != [] && AmountToken(args) != []
    requires parseAmount(AmountToken(args)).Some?
    ensures ParseAdd(args, parseAmount) ==
      Ok(AddArgs(CategoryText(args), parseAmount(AmountToken(args)).value, NoteOf(TailText(args)), TagsOf(TailText(args))))
  {
    ParseAddOutcome(args, parseAmount);
  }

  /** The category is what precedes `: `, and the trimmed remainder is what
      follows it. */
  lemma RemainderOf(category: string, body: string)
    requires ':' !in category && IsTrimmed(body)
    ensures var args := category + ": " + body;
      ':' in args && CategoryText(args) == Trim(category) && Remainder(args) == body
  {
    var args := category + ": " + body;
    assert args == category + [':'] + (" " + body);
    IndexOfAt(category, ':', " " + body);
    assert args[..|category|] == category && args[|category| + 1..] == " " + body;
    TrimLeadingSpace(body);
  }

  /** A trimmed amount free of spaces, then optionally a space and a trimmed
      tail: the cut at the first space gives back both. */
  lemma AmountCut(amount: string, t: string)
    requires amount != [] && IsTrimmed(amount) && ' ' !in amount && EndsClean(amount)
    requires IsTrimmed(t)
    ensures var body := FieldsText(amount, t);
      IsTrimmed(body) && AmountOf(body) == StripDollar(amount) && TailOf(body) == t
  {
    var body := FieldsText(amount, t);
    if t == [] {
      assert body == amount;
      assert amount[..|amount|] == amount;
    } else {
      assert body == amount + [' '] + t;
      IndexOfAt(amount, ' ', t);
      assert body[..|amount|] == amount && body[|amount| + 1..] == t;
      assert body[|amount|] == ' ';
      assert body[|body| - 1] == t[|t| - 1];
    }
  }
}
