/**
  Streaming a content-only chat answer. common/chat.cpp parses one prefix of the model's
  output and computes the difference of two messages; the loop around them is not in the
  repository. Two such loops are assumed here. Both parse every growing prefix from scratch
  and append the difference to the last message; the second skips messages that are empty.
 */
module ChatStreaming {
  import opened Basics
  import opened Text
  import opened ChatReasoning

  datatype Message = Message(content: string, reasoning: string)

  /** `common_chat_parse_content_only`: reasoning first, then everything left is content. */
  function ContentOnly(input: string, partial: bool, sx: Syntax, tags: Tags): Message
    requires tags.Valid()
  {
    var r := Parse(input, partial, sx, tags, 0);
    Message(r.content + input[r.pos..], r.reasoning)
  }

  /** `string_diff`: what must be appended to `last` to get `current`; None when it throws. */
  function StringDiff(last: string, current: string): Option<string> {
    if last == [] then Some(current)
    else if !(last <= current) then
      if current <= last then Some([]) else None
    else Some(current[|last|..])
  }

  /** A difference completes the last text to the current one when that extends it, is empty when the current
      text is shorter, and fails if and only if neither is a prefix of the other. */
  lemma StringDiffIs(last: string, current: string)
    ensures StringDiff(last, current) == None <==> !(last <= current) && !(current <= last)
    ensures last <= current ==> StringDiff(last, current).Some? && last + StringDiff(last, current).value == current
    ensures current < last ==> StringDiff(last, current) == Some("")
  {
  }

  /** The messages parsed from successive inputs, all partial except perhaps the last. */
  function Messages(inputs: seq<string>, finished: bool, sx: Syntax, tags: Tags): (ms: seq<Message>)
    requires tags.Valid()
    ensures |ms| == |inputs|
  {
    seq(|inputs|, k requires 0 <= k < |inputs| => ContentOnly(inputs[k], !(finished && k == |inputs| - 1), sx, tags))
  }

  /** What the client holds after all these messages; None once a difference has thrown. */
  function Received(ms: seq<Message>): Option<Message> {
    if ms == [] then Some(Message([], []))
    else
      var n := |ms| - 1;
      var sofar := Received(ms[..n]);
      var last := if n == 0 then Message([], []) else ms[n - 1];
      var content, reasoning := StringDiff(last.content, ms[n].content), StringDiff(last.reasoning, ms[n].reasoning);
      if sofar.None? || content.None? || reasoning.None? then None
      else Some(Message(sofar.value.content + content.value, sofar.value.reasoning + reasoning.value))
  }

  // ---------- Differences of messages that grow or are taken back ----------

  /** b extends a, except that its content is taken back altogether when `back`. */
  ghost predicate Follows(a: Message, b: Message, back: bool) {
    a.reasoning <= b.reasoning && if back then a.content != [] && b.content == [] else a.content <= b.content
  }

  ghost predicate Chained(ms: seq<Message>, back: seq<bool>) {
    |back| == |ms| && forall i :: 0 <= i < |ms| - 1 ==> Follows(ms[i], ms[i + 1], back[i])
  }

  /** Some step between these messages takes content back. */
  ghost predicate AnyBack(ms: seq<Message>, back: seq<bool>)
    requires |back| == |ms|
  {
    exists i :: 0 <= i < |ms| - 1 && back[i]
  }

  /** The sum of a difference with what is held: exact after exact and forward, else too long. */
  lemma Tally(held: string, a: string, b: string, earlier: bool, back: bool)
    requires if earlier then |held| > |a| else held == a
    requires if back then a != [] && b == [] else a <= b
    ensures var d := StringDiff(a, b);
            d.Some? && if earlier || back then |held + d.value| > |b| else held + d.value == b
  {}

  /** The client never sees a failing difference, is always up to date on the reasoning, and
      on the content until content is first taken back, after which it holds too much for ever. */
  lemma {:induction false} ReceivedSoFar(ms: seq<Message>, back: seq<bool>)
    requires ms != [] && Chained(ms, back)
    ensures var r, m := Received(ms), ms[|ms| - 1];
            && r.Some?
            && r.value.reasoning == m.reasoning
            && if AnyBack(ms, back) then |r.value.content| > |m.content| else r.value.content == m.content
  {
    var n := |ms| - 1;
    if n == 0 {
      assert Received(ms[..0]) == Some(Message([], []));
    } else {
      assert Chained(ms[..n], back[..n]);
      ReceivedSoFar(ms[..n], back[..n]);
      assert Follows(ms[n - 1], ms[n], back[n - 1]);
      AnyBackLast(ms, back);
      var held, a, b := Received(ms[..n]).value, ms[n - 1], ms[n];
      assert ms[..n][n - 1] == a;
      Tally(held.content, a.content, b.content, AnyBack(ms[..n], back[..n]), back[n - 1]);
      Tally(held.reasoning, a.reasoning, b.reasoning, false, false);
    }
  }

  lemma AnyBackLast(ms: seq<Message>, back: seq<bool>)
    requires |back| == |ms| > 1
    ensures var n := |ms| - 1; AnyBack(ms, back) <==> AnyBack(ms[..n], back[..n]) || back[n - 1]
  {
    var n := |ms| - 1;
    if AnyBack(ms[..n], back[..n]) {
      var i :| 0 <= i < n - 1 && back[..n][i];
      assert back[i];
    }
    if AnyBack(ms, back) && !back[n - 1] {
      var i :| 0 <= i < n && back[i];
      assert back[..n][i];
    }
  }

  // ---------- Streams of inputs ----------

  ghost predicate Growing(inputs: seq<string>) {
    forall i :: 0 <= i < |inputs| - 1 ==> inputs[i] <= inputs[i + 1]
  }

  /** Some input made of blanks alone is followed by one whose blanks end in an unfinished start tag. */
  ghost predicate AnyRetraction(inputs: seq<string>, sx: Syntax, tags: Tags)
    requires Growing(inputs)
  {
    exists i :: 0 <= i < |inputs| - 1 && Retracts(inputs[i], inputs[i + 1], sx, tags, 0)
  }

  lemma StepFollows(p: string, q: string, partial: bool, sx: Syntax, tags: Tags)
    requires tags.Valid() && p <= q
    ensures Follows(ContentOnly(p, true, sx, tags), ContentOnly(q, partial, sx, tags), Retracts(p, q, sx, tags, 0))
  {
    hide Sections;
    ParseGrows(p, q, partial, sx, tags, 0);
    if Retracts(p, q, sx, tags, 0) {
      SpacesToEnd(p, 0);
    }
  }

  /** Which steps retract. */
  ghost function Backs(inputs: seq<string>, sx: Syntax, tags: Tags): (back: seq<bool>)
    requires Growing(inputs)
    ensures |back| == |inputs|
    ensures forall i :: 0 <= i < |inputs| - 1 ==> (back[i] <==> Retracts(inputs[i], inputs[i + 1], sx, tags, 0))
  {
    hide Retracts;
    seq(|inputs|, i => BacksAt(inputs, sx, tags, i))
  }

  ghost predicate BacksAt(inputs: seq<string>, sx: Syntax, tags: Tags, i: int) {
    0 <= i < |inputs| - 1 && inputs[i] <= inputs[i + 1] && Retracts(inputs[i], inputs[i + 1], sx, tags, 0)
  }

  lemma StreamChained(inputs: seq<string>, finished: bool, sx: Syntax, tags: Tags)
    requires tags.Valid() && Growing(inputs)
    ensures Chained(Messages(inputs, finished, sx, tags), Backs(inputs, sx, tags))
  {
    hide *;
    var ms, back := Messages(inputs, finished, sx, tags), Backs(inputs, sx, tags);
    forall i | 0 <= i < |ms| - 1 ensures Follows(ms[i], ms[i + 1], back[i]) {
      MessagePair(inputs, finished, sx, tags, i, i + 1);
      BackAt(inputs, sx, tags, i);
    }
    ChainedBy(ms, back);
  }

  lemma ChainedBy(ms: seq<Message>, back: seq<bool>)
    requires |back| == |ms| && forall i :: 0 <= i < |ms| - 1 ==> Follows(ms[i], ms[i + 1], back[i])
    ensures Chained(ms, back)
  {
  }

  lemma BackAt(inputs: seq<string>, sx: Syntax, tags: Tags, i: nat)
    requires Growing(inputs) && i < |inputs| - 1
    ensures inputs[i] <= inputs[i + 1] && (Backs(inputs, sx, tags)[i] <==> Retracts(inputs[i], inputs[i + 1], sx, tags, 0))
  {
  }

  lemma {:induction false} GrowingFrom(inputs: seq<string>, i: nat, k: nat)
    requires Growing(inputs) && i <= k < |inputs|
    ensures inputs[i] <= inputs[k]
  {
    if i < k {
      GrowingFrom(inputs, i, k - 1);
      assert inputs[k - 1] <= inputs[k - 1 + 1];
    }
  }

  /** A later message extends an earlier one, or takes it back. */
  lemma MessagePair(inputs: seq<string>, finished: bool, sx: Syntax, tags: Tags, i: nat, k: nat)
    requires tags.Valid() && Growing(inputs) && i < k < |inputs|
    ensures inputs[i] <= inputs[k]
    ensures var ms := Messages(inputs, finished, sx, tags); Follows(ms[i], ms[k], Retracts(inputs[i], inputs[k], sx, tags, 0))
    ensures var ms := Messages(inputs, finished, sx, tags); Retracts(inputs[i], inputs[k], sx, tags, 0) ==> ms[k] == EMPTY
  {
    hide ContentOnly, Retracts, Follows;
    GrowingFrom(inputs, i, k);
    StepFollows(inputs[i], inputs[k], !(finished && k == |inputs| - 1), sx, tags);
    if Retracts(inputs[i], inputs[k], sx, tags, 0) {
      RetractedIsEmpty(inputs[i], inputs[k], !(finished && k == |inputs| - 1), sx, tags);
    }
  }

  const EMPTY := Message([], [])

  lemma RetractedIsEmpty(p: string, q: string, partial: bool, sx: Syntax, tags: Tags)
    requires tags.Valid() && p <= q && Retracts(p, q, sx, tags, 0)
    ensures ContentOnly(q, partial, sx, tags) == EMPTY
  {
    hide Sections;
  }

  lemma AnyBackIff(inputs: seq<string>, sx: Syntax, tags: Tags, ms: seq<Message>)
    requires Growing(inputs) && |ms| == |inputs|
    ensures AnyBack(ms, Backs(inputs, sx, tags)) <==> AnyRetraction(inputs, sx, tags)
  {
    hide Retracts, Backs;
    var back := Backs(inputs, sx, tags);
    if AnyRetraction(inputs, sx, tags) {
      var i :| 0 <= i < |inputs| - 1 && Retracts(inputs[i], inputs[i + 1], sx, tags, 0);
      assert back[i];
    }
    if AnyBack(ms, back) {
      var i :| 0 <= i < |ms| - 1 && back[i];
      assert Retracts(inputs[i], inputs[i + 1], sx, tags, 0);
    }
  }

  /** Streaming a growing output never fails and always delivers the reasoning exactly; it
      delivers the content exactly if and only if no step of it retracts blanks. */
  lemma StreamIsExact(inputs: seq<string>, finished: bool, sx: Syntax, tags: Tags)
    requires tags.Valid() && Growing(inputs) && inputs != []
    ensures var ms := Messages(inputs, finished, sx, tags);
            var r, m := Received(ms), ms[|ms| - 1];
            && r.Some?
            && r.value.reasoning == m.reasoning
            && (r == Some(m) <==> !AnyRetraction(inputs, sx, tags))
  {
    hide *;
    var ms, back := Messages(inputs, finished, sx, tags), Backs(inputs, sx, tags);
    StreamChained(inputs, finished, sx, tags);
    AnyBackIff(inputs, sx, tags, ms);
    ReceivedSoFar(ms, back);
  }

  // ---------- A driver that skips empty messages ----------

  /** The last message that is not empty. */
  function Kept(ms: seq<Message>): Message {
    if ms == [] then EMPTY
    else if ms[|ms| - 1] != EMPTY then ms[|ms| - 1]
    else Kept(ms[..|ms| - 1])
  }

  /** What the client holds when empty messages are skipped. */
  function ReceivedSkipping(ms: seq<Message>): Option<Message> {
    if ms == [] then Some(EMPTY)
    else
      var n := |ms| - 1;
      var sofar := ReceivedSkipping(ms[..n]);
      if ms[n] == EMPTY then sofar
      else
        var last := Kept(ms[..n]);
        var content, reasoning := StringDiff(last.content, ms[n].content), StringDiff(last.reasoning, ms[n].reasoning);
        if sofar.None? || content.None? || reasoning.None? then None
        else Some(Message(sofar.value.content + content.value, sofar.value.reasoning + reasoning.value))
  }

  /** Every message extends every earlier one, unless it is empty. */
  ghost predicate GrowingButEmpty(ms: seq<Message>) {
    forall i, k :: 0 <= i < k < |ms| && ms[k] != EMPTY ==> Extends(ms[i], ms[k])
  }

  predicate Extends(a: Message, b: Message) {
    a.content <= b.content && a.reasoning <= b.reasoning
  }

  lemma {:induction false} KeptExtendedAt(ms: seq<Message>, n: nat, m: nat)
    requires GrowingButEmpty(ms) && m <= n < |ms| && ms[n] != EMPTY
    ensures Extends(Kept(ms[..m]), ms[n])
  {
    if m > 0 {
      var before := ms[..m];
      assert before[m - 1] == ms[m - 1] && before[..m - 1] == ms[..m - 1];
      if ms[m - 1] == EMPTY {
        KeptExtendedAt(ms, n, m - 1);
      }
    }
  }

  lemma {:induction false} SkippingKeeps(ms: seq<Message>)
    requires GrowingButEmpty(ms)
    ensures ReceivedSkipping(ms) == Some(Kept(ms))
  {
    if ms != [] {
      var n := |ms| - 1;
      assert forall i :: 0 <= i < n ==> ms[..n][i] == ms[i];
      SkippingKeeps(ms[..n]);
      if ms[n] != EMPTY {
        KeptExtendedAt(ms, n, n);
        var last := Kept(ms[..n]);
        Tally(last.content, last.content, ms[n].content, false, false);
        Tally(last.reasoning, last.reasoning, ms[n].reasoning, false, false);
      }
    }
  }

  /** When empty messages are skipped the client holds the last message that is not empty, retractions
      included. That is the last message itself unless this one is empty and an earlier one was not. */
  lemma SkippingIsExact(inputs: seq<string>, finished: bool, sx: Syntax, tags: Tags)
    requires tags.Valid() && Growing(inputs)
    ensures var ms := Messages(inputs, finished, sx, tags); ReceivedSkipping(ms) == Some(Kept(ms))
    ensures var ms := Messages(inputs, finished, sx, tags);
            inputs != [] ==>
              (ReceivedSkipping(ms) == Some(ms[|ms| - 1]) <==>
               ms[|ms| - 1] != EMPTY || forall m :: m in ms ==> m == EMPTY)
  {
    hide Messages, Growing, Retracts, ReceivedSkipping, Kept;
    var ms := Messages(inputs, finished, sx, tags);
    forall i, k | 0 <= i < k < |ms| && ms[k] != EMPTY ensures Extends(ms[i], ms[k]) {
      MessagePair(inputs, finished, sx, tags, i, k);
    }
    SkippingKeeps(ms);
    KeptIsEmptyIff(ms);
    if ms != [] && ms[|ms| - 1] != EMPTY {
      KeptIsLast(ms);
    }
  }

  lemma {:induction false} KeptIsEmptyIff(ms: seq<Message>)
    ensures Kept(ms) == EMPTY <==> forall m :: m in ms ==> m == EMPTY
  {
    if ms != [] {
      var n := |ms| - 1;
      KeptIsEmptyIff(ms[..n]);
      assert ms == ms[..n] + [ms[n]] && ms[n] in ms;
      assert forall m :: m in ms[..n] ==> m in ms;
    }
  }

  lemma KeptIsLast(ms: seq<Message>)
    requires ms != [] && ms[|ms| - 1] != EMPTY
    ensures Kept(ms) == ms[|ms| - 1]
  {
  }

  /** A finished stream after which the client keeps a blank that the last message has taken back. */
  lemma BlankKept()
    ensures var ms := Messages([" ", " <"], true, PLAIN, TAGS);
            ms == [Message(" ", ""), EMPTY] && ReceivedSkipping(ms) == Some(Message(" ", ""))
  {
    hide ContentOnly;
    BlankMessages();
    var ms := Messages([" ", " <"], true, PLAIN, TAGS);
    assert ms == [Message(" ", ""), EMPTY];
    SkipsEmpty(Message(" ", ""));
  }

  lemma SkipsEmpty(m: Message)
    requires m != EMPTY
    ensures ReceivedSkipping([m, EMPTY]) == Some(m)
  {
    assert [m, EMPTY][..1] == [m] && [m][..0] == [];
    var none: string := [];
    assert none + m.content == m.content && none + m.reasoning == m.reasoning;
    assert ReceivedSkipping([m]) == Some(m);
  }

  const PLAIN := Syntax(Auto, false, false)
  const TAGS := Tags("<t>", "</t>")

  lemma BlankMessages()
    ensures ContentOnly(" ", true, PLAIN, TAGS) == Message(" ", "")
    ensures ContentOnly(" <", true, PLAIN, TAGS) == ContentOnly(" <", false, PLAIN, TAGS) == EMPTY
    ensures ContentOnly(" <t>", true, PLAIN, TAGS) == Message(" ", "")
  {
    var a, b, c := " ", " <", " <t>";
    assert SkipSpaces(a, 0) == 1 && SkipSpaces(b, 0) == 1 && SkipSpaces(c, 0) == 1;
    assert StartsLike(b, 1, "<t>") && StartsLike(c, 1, "<t>");
    assert Sections(c, true, PLAIN, TAGS, 4, []) == Parsed(true, 4, [], []);
  }

  lemma TakenBack(blank: Message, empty: Message)
    requires blank == Message(" ", []) && empty == Message([], [])
    ensures Received([blank, empty, blank]) == Some(Message("  ", []))
  {
    var none: string := [];
    assert none + " " == " " && none + none == none && " " + none == " " && " " + " " == "  ";
    assert [blank][..0] == [] && [blank, empty][..1] == [blank] && [blank, empty, blank][..2] == [blank, empty];
    assert Received([blank]) == Some(blank);
    assert Received([blank, empty]) == Some(blank);
  }

  /** Where streaming is not exact: the blank sent with the first prefix is taken back
      in the second and sent again with the third. */
  lemma BlankSentTwice()
    ensures Received(Messages([" ", " <", " <t>"], false, PLAIN, TAGS)) == Some(Message("  ", ""))
  {
    hide ContentOnly, Received;
    BlankMessages();
    var inputs := [" ", " <", " <t>"];
    assert inputs[0] == " " && inputs[1] == " <" && inputs[2] == " <t>";
    TakenBack(Message(" ", []), Message([], []));
    assert Messages(inputs, false, PLAIN, TAGS) == [Message(" ", []), Message([], []), Message(" ", [])];
  }
}
