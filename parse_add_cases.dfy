/** The `AddArgs::parse` unit tests of src/main.rs:507-545. Each test
    string is read field by field as `ParseAddOutcome` describes; the amount
    is whatever the abstract amount parser gives for the token. The lemmas
    that only state that some string literals concatenate to another keep
    those facts out of the larger proofs, where the verifier would spend
    much more effort on them. The last lemma is an input of no test: the
    order of trimming and `$` removal. */
module ParseAddCases {
  import opened Wrappers
  import opened Text
  import opened Commands

  /** `"Test: 1.23"`: category and amount only. */
  lemma CategoryAndAmount<A>(args: string, parseAmount: string -> Option<A>, v: A)
    requires args == "Test: 1.23" && parseAmount("1.23") == Some(v)
    ensures ParseAdd(args, parseAmount) == Ok(AddArgs("Test", v, None, []))
  {
    CategoryAndAmountFields(args);
    ParseAddFound(args, parseAmount, "Test", "1.23", None, []);
  }

  lemma CategoryAndAmountFields(args: string)
    requires args == "Test: 1.23"
    ensures ':' in args && CategoryText(args) == "Test" && AmountToken(args) == "1.23"
    ensures NoteOf(TailText(args)) == None && TagsOf(TailText(args)) == []
  {
    CategoryAndAmountJoin();
    assert IsTrimmed("Test") && IsTrimmed("1.23") && ' ' !in "1.23";
    WithoutTail(args, "Test", "1.23");
  }

  lemma CategoryAndAmountJoin()
    ensures "Test" + ": " + "1.23" == "Test: 1.23"
  {
  }

  /** `"multi word cat: $100"`: spaces inside the category, one `$` removed. */
  lemma DollarAmount<A>(args: string, parseAmount: string -> Option<A>, v: A)
    requires args == "multi word cat: $100" && parseAmount("100") == Some(v)
    ensures ParseAdd(args, parseAmount) == Ok(AddArgs("multi word cat", v, None, []))
  {
    DollarAmountFields(args);
    ParseAddFound(args, parseAmount, "multi word cat", "100", None, []);
  }

  lemma DollarAmountFields(args: string)
    requires args == "multi word cat: $100"
    ensures ':' in args && CategoryText(args) == "multi word cat" && AmountToken(args) == "100"
    ensures NoteOf(TailText(args)) == None && TagsOf(TailText(args)) == []
  {
    DollarAmountJoin();
    assert IsTrimmed("multi word cat") && IsTrimmed("$100") && ' ' !in "$100";
    WithoutTail(args, "multi word cat", "$100");
    assert StripDollar("$100") == "100";
  }

  lemma DollarAmountJoin()
    ensures "multi word cat" + ": " + "$100" == "multi word cat: $100"
  {
  }

  /** `"cat : 0.25 this is a note"`: the category is trimmed, the rest of the
      line is the note. */
  lemma NoteOnly<A>(args: string, parseAmount: string -> Option<A>, v: A)
    requires args == "cat : 0.25 this is a note" && parseAmount("0.25") == Some(v)
    ensures ParseAdd(args, parseAmount) == Ok(AddArgs("cat", v, Some("this is a note"), []))
  {
    NoteOnlyFields(args);
    ParseAddFound(args, parseAmount, "cat", "0.25", Some("this is a note"), []);
  }

  lemma NoteOnlyFields(args: string)
    requires args == "cat : 0.25 this is a note"
    ensures ':' in args && CategoryText(args) == "cat" && AmountToken(args) == "0.25"
    ensures NoteOf(TailText(args)) == Some("this is a note") && TagsOf(TailText(args)) == []
  {
    NoteOnlyHead();
    NoteOnlyJoin();
    assert IsTrimmed("0.25") && ' ' !in "0.25" && ':' !in "cat ";
    assert IsLabel("this is a note");
    WithTail(args, "cat ", "0.25", "this is a note");
    SpacedCategory();
    TailWithoutHash(TailText(args));
  }

  lemma SpacedCategory()
    ensures Trim("cat ") == "cat"
  {
    assert IsTrimmed("cat");
    TrimTrailingSpace("cat");
    assert "cat" + " " == "cat ";
  }

  lemma NoteOnlyHead()
    ensures "cat " + ": " + "0.25" + " " == "cat : 0.25 "
  {
  }

  lemma NoteOnlyJoin()
    ensures "cat : 0.25 " + "this is a note" == "cat : 0.25 this is a note"
  {
  }

  /** `"test: 1.25 #tag"`: a tag and no note. */
  lemma TagOnly<A>(args: string, parseAmount: string -> Option<A>, v: A)
    requires args == "test: 1.25 #tag" && parseAmount("1.25") == Some(v)
    ensures ParseAdd(args, parseAmount) == Ok(AddArgs("test", v, None, ["tag"]))
  {
    TagOnlyFields(args);
    ParseAddFound(args, parseAmount, "test", "1.25", None, ["tag"]);
  }

  lemma TagOnlyFields(args: string)
    requires args == "test: 1.25 #tag"
    ensures ':' in args && CategoryText(args) == "test" && AmountToken(args) == "1.25"
    ensures NoteOf(TailText(args)) == None && TagsOf(TailText(args)) == ["tag"]
  {
    TagOnlyJoin();
    assert IsTrimmed("test") && IsTrimmed("1.25") && ' ' !in "1.25" && IsTrimmed("#tag");
    WithTail(args, "test", "1.25", "#tag");
    OneTag(TailText(args));
  }

  /** The tail `#tag`: no note, the one tag. */
  lemma OneTag(t: string)
    requires t == "#tag"
    ensures NoteOf(t) == None && TagsOf(t) == ["tag"]
  {
    assert IsLabel("tag");
    OneTagJoin();
    SingleTag(t, "tag");
  }

  lemma OneTagJoin()
    ensures "#" + "tag" == "#tag"
  {
  }

  /** A tail that is one tag after its `#`. */
  lemma SingleTag(t: string, tag: string)
    requires t == "#" + tag && IsLabel(tag)
    ensures NoteOf(t) == None && TagsOf(t) == [tag]
  {
    var tags := [tag];
    assert tags[0] == tag && tags[1..] == [];
    assert TagsText(tags[1..]) == [];
    assert t == "#" + tags[0] + TagsText(tags[1..]);
    BareTags(tags);
  }

  lemma TagOnlyJoin()
    ensures "test" + ": " + "1.25" + " " + "#tag" == "test: 1.25 #tag"
  {
  }

  /** `"test: 1 this is a note #one #two #three"`: a note and three tags, in order. */
  lemma NoteAndTagsCase<A>(args: string, parseAmount: string -> Option<A>, v: A)
    requires args == "test: 1 this is a note #one #two #three" && parseAmount("1") == Some(v)
    ensures ParseAdd(args, parseAmount) == Ok(AddArgs("test", v, Some("this is a note"), ["one", "two", "three"]))
  {
    NoteAndTagsFields(args);
    ParseAddFound(args, parseAmount, "test", "1", Some("this is a note"), ["one", "two", "three"]);
  }

  lemma NoteAndTagsFields(args: string)
    requires args == "test: 1 this is a note #one #two #three"
    ensures ':' in args && CategoryText(args) == "test" && AmountToken(args) == "1"
    ensures NoteOf(TailText(args)) == Some("this is a note") && TagsOf(TailText(args)) == ["one", "two", "three"]
  {
    NoteAndTagsHead();
    NoteAndTagsJoin();
    assert IsTrimmed("test") && IsTrimmed("1") && ' ' !in "1";
    assert IsTrimmed("this is a note #one #two #three");
    WithTail(args, "test", "1", "this is a note #one #two #three");
    NoteAndThreeTags(TailText(args));
  }

  /** The tail `this is a note #one #two #three`: the note, then the tags in order. */
  lemma NoteAndThreeTags(t: string)
    requires t == "this is a note #one #two #three"
    ensures t != [] && IsTrimmed(t)
    ensures NoteOf(t) == Some("this is a note") && TagsOf(t) == ["one", "two", "three"]
  {
    NoteAndTagsLabels();
    TailRoundTrip(Some("this is a note"), ["one", "two", "three"]);
    NoteAndTagsTail();
    NoteAndTagsTailJoin();
  }

  lemma NoteAndTagsLabels()
    ensures IsLabel("this is a note")
    ensures forall i :: 0 <= i < 3 ==> IsLabel(["one", "two", "three"][i])
  {
    assert IsLabel("one") && IsLabel("two") && IsLabel("three");
  }

  lemma NoteAndTagsTail()
    ensures RenderedTail(Some("this is a note"), ["one", "two", "three"]) == "this is a note" + " #one #two #three"
  {
    ThreeTagsText();
  }

  lemma ThreeTagsText()
    ensures TagsText(["one", "two", "three"]) == " #one #two #three"
  {
    var tags := ["one", "two", "three"];
    assert TagsText(tags[2..]) == " #three";
    assert TagsText(tags[1..]) == " #two" + " #three";
    assert TagsText(tags) == " #one" + " #two #three";
  }

  lemma NoteAndTagsTailJoin()
    ensures "this is a note" + " #one #two #three" == "this is a note #one #two #three"
  {
  }

  lemma NoteAndTagsHead()
    ensures "test" + ": " + "1" + " " == "test: 1 "
  {
  }

  lemma NoteAndTagsJoin()
    ensures "test: 1 " + "this is a note #one #two #three" == "test: 1 this is a note #one #two #three"
  {
  }

  /** `   weird spacing   :   $1.01    this one has  extra   spacing    #one    #  two  `: whitespace around every field, inside the note and
      around the tags is trimmed away, and the note keeps its inner spaces. */
  lemma IrregularSpacing<A>(args: string, parseAmount: string -> Option<A>, v: A)
    requires args == "   weird spacing   :   $1.01    this one has  extra   spacing    #one    #  two  " && parseAmount("1.01") == Some(v)
    ensures ParseAdd(args, parseAmount) == Ok(AddArgs("weird spacing", v, Some("this one has  extra   spacing"), ["one", "two"]))
  {
    IrregularSpacingFields(args);
    ParseAddFound(args, parseAmount, "weird spacing", "1.01", Some("this one has  extra   spacing"), ["one", "two"]);
  }

  lemma IrregularSpacingFields(args: string)
    requires args == "   weird spacing   :   $1.01    this one has  extra   spacing    #one    #  two  "
    ensures ':' in args && CategoryText(args) == "weird spacing" && AmountToken(args) == "1.01"
    ensures NoteOf(TailText(args)) == Some("this one has  extra   spacing") && TagsOf(TailText(args)) == ["one", "two"]
  {
    IrregularPadding(args);
    IrregularDollar();
    IrregularTail(TailText(args));
  }

  lemma IrregularDollar()
    ensures StripDollar("$1.01") == "1.01"
  {
  }

  /** Where the padded fields of the irregular-spacing test are found. */
  lemma IrregularPadding(args: string)
    requires args == "   weird spacing   :   $1.01    this one has  extra   spacing    #one    #  two  "
    ensures ':' in args && CategoryText(args) == "weird spacing" && AmountToken(args) == StripDollar("$1.01")
    ensures TailText(args) == "this one has  extra   spacing    #one    #  two"
  {
    IrregularJoins();
    IrregularLeftJoin();
    IrregularRightJoin();
    IrregularBodyJoin();
    IrregularPieces();
    PaddedFields(args, "   weird spacing   ", "   $1.01    this one has  extra   spacing    #one    #  two  ", "   ", "weird spacing", "   ", "   ", "$1.01    this one has  extra   spacing    #one    #  two", "  ", "$1.01", "    ", "this one has  extra   spacing    #one    #  two");
  }

  lemma IrregularPieces()
    ensures IsBlank("   ") && IsBlank("  ") && IsBlank("    ")
    ensures IsTrimmed("weird spacing") && ':' !in "   weird spacing   "
    ensures IsTrimmed("$1.01") && ' ' !in "$1.01"
    ensures IsTrimmed("this one has  extra   spacing    #one    #  two")
  {
    IrregularBlanks();
    IrregularCategory();
    IrregularAmount();
    IrregularTrimmedTail();
  }

  lemma IrregularBlanks()
    ensures IsBlank("   ") && IsBlank("  ") && IsBlank("    ")
  {
  }

  lemma IrregularCategory()
    ensures IsTrimmed("weird spacing") && ':' !in "   weird spacing   "
  {
  }

  lemma IrregularAmount()
    ensures IsTrimmed("$1.01") && ' ' !in "$1.01"
  {
  }

  lemma IrregularTrimmedTail()
    ensures IsTrimmed("this one has  extra   spacing    #one    #  two")
  {
    var a := "this one has  extra   spacing    ";
    var d := "  two";
    IrregularTailJoin();
    assert a[0] == 't' && d[|d| - 1] == 'o';
    EndsOfJoin("this one has  extra   spacing    #one    #  two", a, "#" + "one    " + "#", d);
  }

  lemma EndsOfJoin(t: string, a: string, b: string, d: string)
    requires t == a + b + d && a != [] && d != []
    ensures t[0] == a[0] && t[|t| - 1] == d[|d| - 1]
  {
  }

  lemma IrregularJoins()
    ensures "   weird spacing   " + ":" + "   $1.01    this one has  extra   spacing    #one    #  two  " == "   weird spacing   :   $1.01    this one has  extra   spacing    #one    #  two  "
  {
    IrregularColon();
    IrregularRightCut();
    IrregularPrefix();
    IrregularArgsJoin();
    Glue("   weird spacing   :", "   $1.01    this one has  extra   ", "spacing    #one    #  two  ", "   weird spacing   :   $1.01    this one has  extra   ", "   weird spacing   :   $1.01    this one has  extra   spacing    #one    #  two  ");
  }

  lemma IrregularLeftJoin()
    ensures "   " + "weird spacing" + "   " == "   weird spacing   "
  {
  }

  lemma IrregularRightJoin()
    ensures "   " + "$1.01    this one has  extra   spacing    #one    #  two" + "  " == "   $1.01    this one has  extra   spacing    #one    #  two  "
  {
    IrregularBodyCut();
    IrregularRightStart();
    IrregularRightBody();
    Glue("   ", "$1.01    this one has  extra   ", "spacing    #one    #  two", "   $1.01    this one has  extra   ", "   $1.01    this one has  extra   spacing    #one    #  two");
    IrregularRightEnd();
  }

  lemma IrregularBodyJoin()
    ensures "$1.01" + "    " + "this one has  extra   spacing    #one    #  two" == "$1.01    this one has  extra   spacing    #one    #  two"
  {
    IrregularAmountGap();
    IrregularTailCut();
    IrregularBodyStart();
    IrregularBodyCut();
    Glue("$1.01    ", "this one has  extra   ", "spacing    #one    #  two", "$1.01    this one has  extra   ", "$1.01    this one has  extra   spacing    #one    #  two");
  }

  /** `z` is `x` followed by `y1` and `y2`, from the two steps. */
  lemma Glue(x: string, y1: string, y2: string, xy1: string, z: string)
    requires xy1 == x + y1 && z == xy1 + y2
    ensures z == x + (y1 + y2)
  {
    Associative(x, y1, y2);
  }

  lemma IrregularColon() ensures "   weird spacing   " + ":" == "   weird spacing   :" { }
  lemma IrregularRightCut() ensures "   $1.01    this one has  extra   spacing    #one    #  two  " == "   $1.01    this one has  extra   " + "spacing    #one    #  two  " { }
  lemma IrregularPrefix() ensures "   weird spacing   :" + "   $1.01    this one has  extra   " == "   weird spacing   :   $1.01    this one has  extra   " { }
  lemma IrregularArgsJoin() ensures "   weird spacing   :   $1.01    this one has  extra   " + "spacing    #one    #  two  " == "   weird spacing   :   $1.01    this one has  extra   spacing    #one    #  two  " { }
  lemma IrregularBodyCut() ensures "$1.01    this one has  extra   spacing    #one    #  two" == "$1.01    this one has  extra   " + "spacing    #one    #  two" { }
  lemma IrregularRightStart() ensures "   " + "$1.01    this one has  extra   " == "   $1.01    this one has  extra   " { }
  lemma IrregularRightBody() ensures "   $1.01    this one has  extra   " + "spacing    #one    #  two" == "   $1.01    this one has  extra   spacing    #one    #  two" { }
  lemma IrregularRightEnd() ensures "   $1.01    this one has  extra   spacing    #one    #  two" + "  " == "   $1.01    this one has  extra   spacing    #one    #  two  " { }
  lemma IrregularAmountGap() ensures "$1.01" + "    " == "$1.01    " { }
  lemma IrregularTailCut() ensures "this one has  extra   spacing    #one    #  two" == "this one has  extra   " + "spacing    #one    #  two" { }
  lemma IrregularBodyStart() ensures "$1.01    " + "this one has  extra   " == "$1.01    this one has  extra   " { }

  /** The tail of the irregular-spacing test: the note keeps its inner
      spaces, and the padded tags are trimmed. */
  lemma IrregularTail(t: string)
    requires t == "this one has  extra   spacing    #one    #  two"
    ensures NoteOf(t) == Some("this one has  extra   spacing") && TagsOf(t) == ["one", "two"]
  {
    IrregularTailJoin();
    IrregularNoteJoin();
    IrregularTagJoins();
    assert IsBlank("    ") && IsBlank("  ") && IsBlank([]);
    assert IsLabel("this one has  extra   spacing") && IsLabel("one") && IsLabel("two");
    PaddedLabel("this one has  extra   spacing    ", [], "this one has  extra   spacing", "    ");
    PaddedLabel("one    ", [], "one", "    ");
    PaddedLabel("  two", "  ", "two", []);
    TwoTagTail(t, "this one has  extra   spacing    ", "one    ", "  two");
  }

  lemma IrregularTailJoin()
    ensures "this one has  extra   spacing    " + "#" + "one    " + "#" + "  two" == "this one has  extra   spacing    #one    #  two"
  {
  }

  lemma IrregularNoteJoin()
    ensures [] + "this one has  extra   spacing" + "    " == "this one has  extra   spacing    "
  {
  }

  lemma IrregularTagJoins()
    ensures [] + "one" + "    " == "one    "
    ensures "  " + "two" + [] == "  two"
  {
  }

  /** Blank padding around the category, around the remainder and between
      the amount and the tail: each field is found without it. */
  lemma PaddedFields(
    args: string, left: string, right: string,
    catPre: string, category: string, catPost: string,
    remPre: string, body: string, remPost: string,
    amount: string, gap: string, tail: string)
    requires args == left + ":" + right
    requires left == catPre + category + catPost && ':' !in left
    requires right == remPre + body + remPost
    requires body == amount + gap + tail
    requires IsBlank(catPre) && IsBlank(catPost) && IsBlank(remPre) && IsBlank(remPost)
    requires category != [] && IsTrimmed(category)
    requires amount != [] && IsTrimmed(amount) && ' ' !in amount
    requires gap != [] && gap[0] == ' ' && IsBlank(gap)
    requires tail != [] && IsTrimmed(tail)
    ensures ':' in args && CategoryText(args) == category && AmountToken(args) == StripDollar(amount)
    ensures TailText(args) == tail
  {
    PaddedRemainder(args, left, right, catPre, category, catPost);
    assert body[0] == amount[0] && body[|body| - 1] == tail[|tail| - 1];
    TrimPad(right, remPre, body, remPost);
    GapFields(body, amount, gap, tail);
  }

  /** The category, trimmed of its padding, and the text after the `:`. */
  lemma PaddedRemainder(args: string, left: string, right: string, catPre: string, category: string, catPost: string)
    requires args == left + ":" + right
    requires left == catPre + category + catPost && ':' !in left
    requires IsBlank(catPre) && IsBlank(catPost) && category != [] && IsTrimmed(category)
    ensures ':' in args && CategoryText(args) == category
    ensures Remainder(args) == Trim(right)
  {
    IndexOfAt(left, ':', right);
    assert args[..|left|] == left && args[|left| + 1..] == right;
    TrimPad(left, catPre, category, catPost);
  }

  /** A remainder `<amount><blank gap><tail>`: the amount and the tail. */
  lemma GapFields(body: string, amount: string, gap: string, tail: string)
    requires body == amount + gap + tail
    requires amount != [] && IsTrimmed(amount) && ' ' !in amount
    requires gap != [] && gap[0] == ' ' && IsBlank(gap)
    requires tail != [] && IsTrimmed(tail)
    ensures AmountOf(body) == StripDollar(amount) && TailOf(body) == tail
  {
    GapCut(body, amount, gap, tail);
    BlankRest(gap);
    GapTail(body, gap[1..], tail);
  }

  lemma GapTail(body: string, g: string, tail: string)
    requires ' ' in body && body[IndexOf(body, ' ') + 1..] == g + tail
    requires IsBlank(g) && tail != [] && IsTrimmed(tail)
    ensures TailOf(body) == tail
  {
    var r := body[IndexOf(body, ' ') + 1..];
    assert r == g + tail + [];
    TrimPad(r, g, tail, []);
  }

  lemma GapCut(body: string, amount: string, gap: string, tail: string)
    requires body == amount + gap + tail && gap != [] && gap[0] == ' ' && ' ' !in amount
    ensures ' ' in body && IndexOf(body, ' ') == |amount|
    ensures body[..|amount|] == amount && body[|amount| + 1..] == gap[1..] + tail
  {
    var g := gap[1..];
    assert gap == [' '] + g;
    Associative(amount, [' '] + g, tail);
    Associative([' '], g, tail);
    Associative(amount, [' '], g + tail);
    assert body == amount + [' '] + (g + tail);
    IndexOfAt(amount, ' ', g + tail);
  }

  lemma BlankRest(s: string)
    requires s != [] && IsBlank(s)
    ensures IsBlank(s[1..])
  {
  }

  /** A label with blank padding: free of `#`, and trimmed back to the label. */
  lemma PaddedLabel(s: string, pre: string, k: string, post: string)
    requires s == pre + k + post && IsLabel(k) && IsBlank(pre) && IsBlank(post)
    ensures '#' !in s && Trim(s) == k
  {
    AsciiWhitespace('#');
    TrimPad(s, pre, k, post);
  }

  /** A tail of three `#`-free segments: the first, trimmed, is the note and
      the other two, trimmed, are the tags. */
  lemma TwoTagTail(t: string, a: string, b: string, d: string)
    requires t == a + "#" + b + "#" + d
    requires '#' !in a && '#' !in b && '#' !in d
    requires Trim(a) != [] && Trim(b) != [] && Trim(d) != []
    ensures NoteOf(t) == Some(Trim(a)) && TagsOf(t) == [Trim(b), Trim(d)]
  {
    SplitThree(t, a, b, d, '#');
    assert [a, b, d][0] == a && [a, b, d][1..] == [b, d];
    CleanTwo(b, d);
  }

  lemma CleanTwo(b: string, d: string)
    requires Trim(b) != [] && Trim(d) != []
    ensures CleanParts([b, d]) == [Trim(b), Trim(d)]
  {
    var parts := [b, d];
    assert parts[0] == b && parts[1..] == [d];
    assert [d][0] == d && [d][1..] == [];
    CleanPartsCons(parts);
    CleanPartsCons([d]);
  }

  /** `ParseAddOutcome` for an input whose fields are known. */
  lemma ParseAddFound<A>(
    args: string, parseAmount: string -> Option<A>,
    category: string, token: string, note: Option<string>, tags: seq<string>)
    requires ':' in args && CategoryText(args) == category != [] && AmountToken(args) == token != []
    requires NoteOf(TailText(args)) == note && TagsOf(TailText(args)) == tags
    ensures ParseAdd(args, parseAmount) ==
      match parseAmount(token)
      case None => Err("Invalid amount: " + token)
      case Some(v) => Ok(AddArgs(category, v, note, tags))
  {
    ParseAddOutcome(args, parseAmount);
  }

  /** `<category>: <amount> <tail>` with no space in the amount and a
      trimmed tail: where the grammar finds the three. */
  lemma WithTail(args: string, category: string, amount: string, tail: string)
    requires args == category + ": " + amount + " " + tail
    requires ':' !in category && amount != [] && IsTrimmed(amount) && ' ' !in amount
    requires tail != [] && IsTrimmed(tail)
    ensures ':' in args && CategoryText(args) == Trim(category) && AmountToken(args) == StripDollar(amount)
    ensures TailText(args) == tail
  {
    var body := amount + " " + tail;
    var head := category + ": ";
    Associative(head + amount, " ", tail);
    Associative(head, amount, " " + tail);
    Associative(amount, " ", tail);
    AmountCut(amount, tail);
    assert FieldsText(amount, tail) == body;
    RemainderOf(category, body);
  }

  /** `"c: $\t5"`: the amount is trimmed before its `$` is removed and not
      after, so the whitespace behind the `$` stays in the token handed to
      the amount parser. */
  lemma DollarBeforeTab<A>(args: string, parseAmount: string -> Option<A>)
    requires args == "c: $\t5"
    ensures ParseAdd(args, parseAmount) ==
      match parseAmount("\t5")
      case None => Err("Invalid amount: \t5")
      case Some(v) => Ok(AddArgs("c", v, None, []))
  {
    DollarBeforeTabFields(args);
    ParseAddFound(args, parseAmount, "c", "\t5", None, []);
    DollarBeforeTabJoin();
  }

  lemma DollarBeforeTabJoin()
    ensures "c" + ": " + "$\t5" == "c: $\t5"
    ensures "Invalid amount: " + "\t5" == "Invalid amount: \t5"
  {
  }

  lemma DollarBeforeTabFields(args: string)
    requires args == "c: $\t5"
    ensures ':' in args && CategoryText(args) == "c" && AmountToken(args) == "\t5"
    ensures NoteOf(TailText(args)) == None && TagsOf(TailText(args)) == []
  {
    DollarBeforeTabJoin();
    assert IsTrimmed("$\t5") && ' ' !in "$\t5" && IsTrimmed("c");
    WithoutTail(args, "c", "$\t5");
    assert StripDollar("$\t5") == "\t5";
  }

  /** `<category>: <amount>` with no space in the amount: no note, no tags. */
  lemma WithoutTail(args: string, category: string, amount: string)
    requires args == category + ": " + amount
    requires ':' !in category && amount != [] && IsTrimmed(amount) && ' ' !in amount
    ensures ':' in args && CategoryText(args) == Trim(category) && AmountToken(args) == StripDollar(amount)
    ensures NoteOf(TailText(args)) == None && TagsOf(TailText(args)) == []
  {
    AmountCut(amount, []);
    assert FieldsText(amount, []) == amount;
    RemainderOf(category, amount);
    EmptyTail();
  }
}
