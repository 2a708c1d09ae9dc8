/** The greedy word wrap of the command-line help, common/arg.cpp. */
module Wrap {
  import opened Basics
  import opened Text
  import opened Strings

  // ---------- Words and input lines ----------

  predicate IsWord(w: string) {
    w != [] && forall i :: 0 <= i < |w| ==> !IsSpace(w[i])
  }

  predicate AreWords(ws: seq<string>) {
    forall i :: 0 <= i < |ws| ==> IsWord(ws[i])
  }

  /** End of the run of non-blank characters that starts at i. */
  function WordEnd(s: string, i: nat): (r: nat)
    requires i <= |s|
    ensures i <= r <= |s| && (r == |s| || IsSpace(s[r]))
    ensures forall k :: i <= k < r ==> !IsSpace(s[k])
    decreases |s| - i
  {
    if i == |s| || IsSpace(s[i]) then i else WordEnd(s, i + 1)
  }

  /** What repeated `stream >> word` yields from position i on. */
  function Words(s: string, i: nat := 0): (ws: seq<string>)
    requires i <= |s|
    ensures AreWords(ws)
    decreases |s| - i
  {
    var b := SkipSpaces(s, i);
    if b == |s| then [] else
      var e := WordEnd(s, b);
      [s[b..e]] + Words(s, e)
  }

  /** What repeated `std::getline` yields from position i on: no line after a final newline. */
  function InputLines(s: string, i: nat := 0): seq<string>
    requires i <= |s|
    decreases |s| - i
  {
    if i == |s| then [] else
      match Find(s, "\n", i)
      case None => [s[i..]]
      case Some(e) => [s[i..e]] + InputLines(s, e + 1)
  }

  /** The input lines are the pieces between newlines, without an empty last one. */
  lemma {:induction false} InputLinesAreSplit(s: string, i: nat)
    requires i <= |s|
    ensures var parts := Split(s, "\n", i); var last := |parts| - 1;
            InputLines(s, i) == if parts[last] == "" then parts[..last] else parts
    decreases |s| - i
  {
    hide Find, Split;
    var found := Find(s, "\n", i);
    if found.Some? {
      SplitAt(s, "\n", i, found.value, "");
      InputLinesAreSplit(s, found.value + 1);
      var rest := Split(s, "\n", found.value + 1);
      assert Split(s, "\n", i)[..|rest|] == [s[i..found.value]] + rest[..|rest| - 1];
    } else {
      SplitEnd(s, "\n", i, "");
    }
  }

  // ---------- Groupings of words ----------

  function Row(group: seq<string>): string {
    Join(group, " ")
  }

  /** A line may be too long only when it is a single word. */
  predicate Allowed(group: seq<string>, max: nat) {
    group != [] && (|Row(group)| <= max || |group| == 1)
  }

  predicate Grouping(groups: seq<seq<string>>, words: seq<string>, max: nat) {
    && Flatten(groups) == words
    && forall i :: 0 <= i < |groups| ==> Allowed(groups[i], max)
  }

  /** Fill the current line as long as the next word fits. */
  function Greedy(current: seq<string>, words: seq<string>, max: nat): seq<seq<string>>
    decreases |words|
  {
    if words == [] then (if current == [] then [] else [current])
    else if current == [] || |Row(current + [words[0]])| <= max then Greedy(current + [words[0]], words[1..], max)
    else [current] + Greedy([words[0]], words[1..], max)
  }

  // ---------- Greedy is a grouping, and none is shorter ----------

  lemma {:induction false} GreedyIsGrouping(current: seq<string>, words: seq<string>, max: nat)
    requires current == [] || Allowed(current, max)
    ensures Grouping(Greedy(current, words, max), current + words, max)
    decreases |words|
  {
    if words != [] {
      var w, rest := words[0], words[1..];
      if current == [] || |Row(current + [w])| <= max {
        GreedyIsGrouping(current + [w], rest, max);
        assert current + [w] + rest == current + words;
      } else {
        GreedyIsGrouping([w], rest, max);
        assert [w] + rest == words;
      }
    } else {
      assert current + words == current;
    }
  }

  lemma {:induction false} SuffixIsShorter(a: seq<string>, b: seq<string>)
    requires b != []
    ensures |Row(b)| <= |Row(a + b)|
  {
    if a == [] {
      assert a + b == b;
    } else {
      SuffixIsShorter(a[1..], b);
      assert (a + b)[1..] == a[1..] + b;
    }
  }

  lemma {:induction false} PrefixIsShorter(a: seq<string>, b: seq<string>)
    ensures |Row(a)| <= |Row(a + b)|
    decreases |b|
  {
    if b == [] {
      assert a + b == a;
    } else {
      var last := |b| - 1;
      PrefixIsShorter(a, b[..last]);
      assert a + b == a + b[..last] + [b[last]];
      if a + b[..last] != [] {
        JoinSnoc(a + b[..last], b[last], " ");
      }
    }
  }

  /** Starting a line with fewer words never costs a line, and starting it with more costs at most one. */
  lemma {:induction false} FewerIsNoWorse(a: seq<string>, b: seq<string>, words: seq<string>, max: nat)
    requires b != []
    ensures |Greedy(b, words, max)| <= |Greedy(a + b, words, max)| <= 1 + |Greedy(b, words, max)|
    decreases |words|
  {
    if words != [] {
      var w, rest := words[0], words[1..];
      assert a + b + [w] == a + (b + [w]);
      SuffixIsShorter(a, b + [w]);
      FewerIsNoWorse(a, b + [w], rest, max);
      FewerIsNoWorse(b, [w], rest, max);
    }
  }

  lemma {:induction false} FillsPrefix(current: seq<string>, group: seq<string>, rest: seq<string>, max: nat)
    requires Allowed(current + group, max)
    ensures Greedy(current, group + rest, max) == Greedy(current + group, rest, max)
    decreases |group|
  {
    if group == [] {
      assert group + rest == rest && current + group == current;
    } else {
      var w := group[0];
      assert (group + rest)[1..] == group[1..] + rest;
      assert current + [w] + group[1..] == current + group;
      PrefixIsShorter(current + [w], group[1..]);
      FillsPrefix(current + [w], group[1..], rest, max);
    }
  }

  /** No grouping of the same words that keeps the rule uses fewer lines. */
  lemma {:induction false} GreedyIsOptimal(groups: seq<seq<string>>, words: seq<string>, max: nat)
    requires Grouping(groups, words, max)
    ensures |Greedy([], words, max)| <= |groups|
    decreases |groups|
  {
    if groups != [] {
      var first, rest := groups[0], Flatten(groups[1..]);
      GreedyIsOptimal(groups[1..], rest, max);
      assert Allowed([] + first, max) by { assert [] + first == first; }
      FillsPrefix([], first, rest, max);
      assert [] + first == first;
      if rest != [] {
        var w := rest[0];
        assert [] + [w] == [w];
        assert Greedy([], rest, max) == Greedy([w], rest[1..], max);
        FewerIsNoWorse(first, [w], rest[1..], max);
      }
    }
  }

  // ---------- The loops ----------

  function Rows(groups: seq<seq<string>>): seq<string> {
    seq(|groups|, i requires 0 <= i < |groups| => Row(groups[i]))
  }

  /** An input line that is short enough keeps its spacing; a longer one is regrouped. */
  function Wrapped(line: string, max: nat): seq<string> {
    if |line| <= max then [line] else Rows(Greedy([], Words(line), max))
  }

  function WrappedAll(lines: seq<string>, max: nat): seq<string> {
    if lines == [] then [] else Wrapped(lines[0], max) + WrappedAll(lines[1..], max)
  }

  lemma RowOfWords(current: seq<string>, w: string)
    requires AreWords(current) && IsWord(w)
    ensures AreWords(current + [w])
    ensures Row(current) == "" <==> current == []
    ensures Row(current + [w]) == if current == [] then w else Row(current) + " " + w
    ensures Row([w]) == w
  {
    if current != [] {
      JoinSnoc(current, w, " ");
      assert IsWord(current[0]);
    } else {
      assert current + [w] == [w];
    }
  }

  lemma RowsCons(group: seq<string>, groups: seq<seq<string>>)
    ensures Rows([group] + groups) == [Row(group)] + Rows(groups)
  {
  }

  lemma GreedyStep(current: seq<string>, w: string, words: seq<string>, max: nat)
    requires AreWords(current) && IsWord(w)
    ensures Rows(Greedy(current, [w] + words, max)) ==
            if current == [] || |Row(current)| + 1 + |w| <= max then Rows(Greedy(current + [w], words, max))
            else [Row(current)] + Rows(Greedy([w], words, max))
  {
    RowOfWords(current, w);
    RowsCons(current, Greedy([w], words, max));
  }

  lemma GreedyEnd(current: seq<string>, max: nat)
    ensures Rows(Greedy(current, [], max)) == if current == [] then [] else [Row(current)]
  {
  }

  /** One word: on the current line when it fits, else on a new one. */
  method PlaceWord(line: string, word: string, max: nat, result: seq<string>, ghost current: seq<string>, ghost words: seq<string>)
      returns (l: string, r: seq<string>, ghost c: seq<string>)
    requires IsWord(word) && IsLine(line, current)
    ensures IsLine(l, c) && r + Rows(Greedy(c, words, max)) == result + Rows(Greedy(current, [word] + words, max))
  {
    hide IsWord, Join, Row, Rows, Greedy;
    RowOfWords(current, word);
    GreedyStep(current, word, words, max);
    l, r := line, result;
    if |l| + (if l != "" then 1 else 0) + |word| > max {
      if l != "" {
        r := r + [l];
      }
      l, c := word, [word];
    } else {
      l, c := l + (if l != "" then " " else "") + word, current + [word];
    }
    assert current == [] ==> current + [word] == [word];
    IsLineOf(word, l, c);
  }

  ghost predicate IsLine(line: string, current: seq<string>) {
    AreWords(current) && line == Row(current) && (line == "" <==> current == [])
  }

  lemma IsLineOf(word: string, line: string, current: seq<string>)
    requires IsWord(word) && AreWords(current) && line == Row(current)
    ensures IsLine(line, current)
  {
    RowOfWords(current, word);
  }

  /** The `add_line` closure. */
  method AddLine(l: string, max: nat, result: seq<string>) returns (r: seq<string>)
    ensures r == result + Wrapped(l, max)
  {
    if |l| <= max {
      return result + [l];
    }
    hide IsWord, AreWords, Join, Row, Rows, Words, Greedy, Wrapped, IsSpace, SkipSpaces, WordEnd;
    r := result;
    var line := "";
    ghost var current: seq<string> := [];
    var i := 0;
    var b := SkipSpaces(l, i);
    ghost var goal := result + Rows(Greedy([], Words(l), max));
    RowEmpty();
    while b < |l|
      invariant i <= |l| && b == SkipSpaces(l, i)
      invariant IsLine(line, current)
      invariant r + Rows(Greedy(current, Words(l, i), max)) == goal
      decreases |l| - i
    {
      var e := WordEnd(l, b);
      var word := l[b..e];
      NextWord(l, i);
      line, r, current := PlaceWord(line, word, max, r, current, Words(l, e));
      i := e;
      b := SkipSpaces(l, i);
    }
    NoWord(l, i);
    GreedyEnd(current, max);
    if line != "" {
      r := r + [line];
    }
    WrappedLong(l, max);
  }

  lemma RowEmpty()
    ensures Row([]) == "" && AreWords([])
  {
  }

  lemma WrappedLong(l: string, max: nat)
    requires |l| > max
    ensures Wrapped(l, max) == Rows(Greedy([], Words(l), max))
  {
  }

  lemma NoWord(s: string, i: nat)
    requires i <= |s| && SkipSpaces(s, i) == |s|
    ensures Words(s, i) == []
  {
  }

  lemma NextWord(s: string, i: nat)
    requires i <= |s| && SkipSpaces(s, i) < |s|
    ensures var b := SkipSpaces(s, i); var e := WordEnd(s, b);
            b < e && IsWord(s[b..e]) && Words(s, i) == [s[b..e]] + Words(s, e)
  {
  }

  lemma NextLine(s: string, i: nat, line: string, next: nat)
    requires i < |s|
    requires match Find(s, "\n", i)
             case None => line == s[i..] && next == |s|
             case Some(e) => line == s[i..e] && next == e + 1
    ensures i < next <= |s| && InputLines(s, i) == [line] + InputLines(s, next)
  {
    hide Find;
  }

  lemma WrappedCons(line: string, lines: seq<string>, max: nat)
    ensures WrappedAll([line] + lines, max) == Wrapped(line, max) + WrappedAll(lines, max)
  {
  }

  lemma EmptyInput(s: string, max: nat)
    ensures WrappedAll(InputLines(s, |s|), max) == []
  {
  }

  /** `break_str_into_lines`. */
  method BreakIntoLines(input: string, max: nat) returns (result: seq<string>)
    ensures result == WrappedAll(InputLines(input), max)
  {
    hide InputLines, WrappedAll, Wrapped, Find;
    result := [];
    var i := 0;
    while i < |input|
      invariant i <= |input|
      invariant result + WrappedAll(InputLines(input, i), max) == WrappedAll(InputLines(input), max)
      decreases |input| - i
    {
      var found := Find(input, "\n", i);
      var line, next := input[i..], |input|;
      if found.Some? {
        line, next := input[i..found.value], found.value + 1;
      }
      NextLine(input, i, line, next);
      WrappedCons(line, InputLines(input, next), max);
      result := AddLine(line, max, result);
      i := next;
    }
    EmptyInput(input, max);
  }

  // ---------- Words survive, and wrapping twice is wrapping once ----------

  lemma WordsFront(s: string, w: string, rest: string)
    requires IsWord(w) && s == w + rest && (rest == [] || IsSpace(rest[0]))
    ensures Words(s) == [w] + Words(s, |w|)
  {
    assert s[0] == w[0] && SkipSpaces(s, 0) == 0;
    assert forall k :: 0 <= k < |w| ==> s[k] == w[k];
    assert rest != [] ==> s[|w|] == rest[0];
    assert WordEnd(s, 0) == |w|;
    assert s[0..|w|] == w;
  }

  lemma {:induction false} SkipShift(s: string, from: nat, base: nat)
    requires base <= from <= |s|
    ensures SkipSpaces(s, from) == base + SkipSpaces(s[base..], from - base)
    decreases |s| - from
  {
    if from < |s| && IsSpace(s[from]) {
      SkipShift(s, from + 1, base);
    }
  }

  lemma {:induction false} WordsShift(s: string, from: nat, base: nat)
    requires base <= from <= |s|
    ensures Words(s, from) == Words(s[base..], from - base)
    decreases |s| - from
  {
    hide IsSpace, WordEnd, SkipSpaces, IsWord, Words, AreWords;
    SkipShift(s, from, base);
    var b := SkipSpaces(s, from);
    var t := s[base..];
    if b == |s| {
      NoWord(s, from);
      NoWord(t, from - base);
    } else {
      WordEndShift(s, b, base);
      var e := WordEnd(s, b);
      NextWord(s, from);
      NextWord(t, from - base);
      WordsShift(s, e, base);
      assert t[b - base..e - base] == s[b..e];
    }
  }

  lemma {:induction false} WordEndShift(s: string, i: nat, base: nat)
    requires base <= i <= |s|
    ensures WordEnd(s, i) == base + WordEnd(s[base..], i - base)
    decreases |s| - i
  {
    if i < |s| && !IsSpace(s[i]) {
      WordEndShift(s, i + 1, base);
    }
  }

  /** Reading a row back gives exactly its words. */
  lemma {:induction false} WordsOfRow(group: seq<string>)
    requires AreWords(group)
    ensures Words(Row(group)) == group
  {
    if group != [] {
      var s, w := Row(group), group[0];
      assert IsWord(w);
      if |group| == 1 {
        WordsFront(s, w, "");
      } else {
        WordsOfRow(group[1..]);
        WordThenRow(w, Row(group[1..]));
        assert [w] + group[1..] == group;
      }
    }
  }

  lemma WordThenRow(w: string, tail: string)
    requires IsWord(w)
    ensures Words(w + " " + tail) == [w] + Words(tail)
  {
    hide IsWord;
    var s := w + " " + tail;
    assert s == w + (" " + tail);
    WordsFront(s, w, " " + tail);
    assert s[|w|] == ' ' && s[|w| + 1..] == tail;
    WordsShift(s, |w| + 1, |w| + 1);
    assert SkipSpaces(s, |w|) == SkipSpaces(s, |w| + 1);
  }

  /** The words carried by a list of lines. */
  function Carried(lines: seq<string>): seq<string> {
    if lines == [] then [] else Words(lines[0]) + Carried(lines[1..])
  }

  lemma {:induction false} CarriedByRows(groups: seq<seq<string>>)
    requires AreWords(Flatten(groups))
    ensures Carried(Rows(groups)) == Flatten(groups)
  {
    if groups != [] {
      var words := Flatten(groups);
      var first, rest := groups[0], groups[1..];
      assert AreWords(first) by {
        assert forall i :: 0 <= i < |first| ==> first[i] == words[i];
      }
      assert AreWords(Flatten(rest)) by {
        assert forall i :: 0 <= i < |Flatten(rest)| ==> Flatten(rest)[i] == words[|first| + i];
      }
      CarriedByRows(rest);
      WordsOfRow(first);
      assert Rows(groups)[1..] == Rows(rest);
    }
  }

  /** Single spacing is the shortest way to write the words of a line. */
  lemma {:induction false} SingleSpacedIsShortest(s: string, i: nat)
    requires i <= |s|
    ensures |Row(Words(s, i))| <= |s| - i
    decreases |s| - i
  {
    hide IsSpace, IsWord, Join;
    var b := SkipSpaces(s, i);
    if b == |s| {
      NoWord(s, i);
      RowEmpty();
    } else {
      var e := WordEnd(s, b);
      NextWord(s, i);
      SingleSpacedIsShortest(s, e);
      RowCons(s[b..e], Words(s, e));
      if e < |s| {
        SingleSpacedIsShortest(s, e + 1);
      }
    }
  }

  lemma RowCons(w: string, words: seq<string>)
    ensures |Row([w] + words)| == if words == [] then |w| else |w| + 1 + |Row(words)|
  {
  }

  /** The groups that a list of lines spells out, blank lines dropped. */
  function Spelled(lines: seq<string>): seq<seq<string>> {
    if lines == [] then []
    else if Words(lines[0]) == [] then Spelled(lines[1..])
    else [Words(lines[0])] + Spelled(lines[1..])
  }

  predicate Fits(line: string, max: nat) {
    |line| <= max || |Words(line)| <= 1
  }

  lemma {:induction false} SpelledIsGrouping(lines: seq<string>, max: nat)
    requires forall i :: 0 <= i < |lines| ==> Fits(lines[i], max)
    ensures Grouping(Spelled(lines), Carried(lines), max) && |Spelled(lines)| <= |lines|
  {
    if lines != [] {
      SpelledIsGrouping(lines[1..], max);
      SingleSpacedIsShortest(lines[0], 0);
      assert Fits(lines[0], max);
    }
  }

  /**
   * Wrapping one input line: the rows carry the same words in the same order, each row fits or is one
   * word, and each row wraps to itself.
   */
  lemma WrapIsFaithful(line: string, max: nat)
    ensures Carried(Wrapped(line, max)) == Words(line)
    ensures forall i :: 0 <= i < |Wrapped(line, max)| ==>
              var row := Wrapped(line, max)[i]; (|row| <= max || IsWord(row)) && Wrapped(row, max) == [row]
  {
    if |line| <= max {
      assert Wrapped(line, max)[1..] == [];
    } else {
      var groups := Greedy([], Words(line), max);
      GreedyIsGrouping([], Words(line), max);
      assert [] + Words(line) == Words(line);
      CarriedByRows(groups);
      forall i | 0 <= i < |groups| ensures (|Row(groups[i])| <= max || IsWord(Row(groups[i]))) && Wrapped(Row(groups[i]), max) == [Row(groups[i])] {
        RowWrapsToItself(groups, Words(line), i, max);
      }
    }
  }

  /** No list of lines that carries these words under the same rule, however it is spaced, is shorter. */
  lemma WrapIsOptimal(line: string, max: nat, other: seq<string>)
    requires |line| > max || Words(line) != []
    requires Carried(other) == Words(line) && forall i :: 0 <= i < |other| ==> Fits(other[i], max)
    ensures |Wrapped(line, max)| <= |other|
  {
    SpelledIsGrouping(other, max);
    GreedyIsOptimal(Spelled(other), Words(line), max);
  }

  /** The group after i starts with a word that did not fit group i. */
  ghost predicate Filled(groups: seq<seq<string>>, i: nat, max: nat)
    requires i + 1 < |groups|
  {
    groups[i + 1] != [] && |Row(groups[i] + [groups[i + 1][0]])| > max
  }

  /** A group takes words until the next one does not fit. */
  lemma {:induction false} GreedyFills(current: seq<string>, words: seq<string>, max: nat)
    requires current != []
    ensures var groups := Greedy(current, words, max);
            && groups != [] && current <= groups[0]
            && forall i: nat :: i + 1 < |groups| ==> Filled(groups, i, max)
    decreases |words|
  {
    hide Row;
    if words != [] {
      var w, rest := words[0], words[1..];
      if |Row(current + [w])| <= max {
        GreedyFills(current + [w], rest, max);
      } else {
        GreedyFills([w], rest, max);
        var groups := Greedy([w], rest, max);
        assert groups[0][0] == w;
        forall i: nat | i + 1 < |groups| + 1 ensures Filled([current] + groups, i, max) {
          if i > 0 {
            assert Filled(groups, i - 1, max);
          }
        }
      }
    }
  }

  /** Words joined by single spaces. */
  ghost predicate SingleSpaced(row: string) {
    Words(row) != [] && row == Join(Words(row), " ")
  }

  /** A row has no room for the first word of the next. */
  ghost predicate Full(rows: seq<string>, i: nat, max: nat)
    requires i + 1 < |rows|
  {
    Words(rows[i + 1]) != [] && |rows[i]| + 1 + |Words(rows[i + 1])[0]| > max
  }

  /** A line that is short enough is kept as it is. The rows of a longer one are single-spaced, and none
      but the last has room for another word. */
  lemma RowsAreFull(line: string, max: nat)
    ensures |line| <= max ==> Wrapped(line, max) == [line]
    ensures |line| > max ==>
              var rows := Wrapped(line, max);
              && (forall i :: 0 <= i < |rows| ==> SingleSpaced(rows[i]))
              && forall i: nat :: i + 1 < |rows| ==> Full(rows, i, max)
  {
    hide Words, Join, IsWord, AreWords;
    var words := Words(line);
    if |line| > max && words != [] {
      var groups := Greedy([], words, max);
      assert [] + [words[0]] == [words[0]];
      GreedyFills([words[0]], words[1..], max);
      GreedyIsGrouping([], words, max);
      assert [] + words == words;
      forall i | 0 <= i < |groups| ensures AreWords(groups[i]) && SingleSpaced(Row(groups[i])) {
        assert Allowed(groups[i], max);
        GroupWords(groups, i);
        WordsOfRow(groups[i]);
      }
      forall i: nat | i + 1 < |groups| ensures Full(Rows(groups), i, max) {
        assert Filled(groups, i, max);
        WordsOfRow(groups[i + 1]);
        FirstIsWord(groups[i + 1]);
        RowOfWords(groups[i], groups[i + 1][0]);
        assert Allowed(groups[i], max);
      }
    }
  }

  lemma FirstIsWord(group: seq<string>)
    requires AreWords(group) && group != []
    ensures IsWord(group[0])
  {
  }

  lemma {:induction false} GroupWords(groups: seq<seq<string>>, i: nat)
    requires AreWords(Flatten(groups)) && i < |groups|
    ensures AreWords(groups[i])
  {
    var words := Flatten(groups);
    var first, rest := groups[0], groups[1..];
    if i == 0 {
      assert forall k :: 0 <= k < |first| ==> first[k] == words[k];
    } else {
      assert forall k :: 0 <= k < |Flatten(rest)| ==> Flatten(rest)[k] == words[|first| + k];
      GroupWords(rest, i - 1);
    }
  }

  lemma RowWrapsToItself(groups: seq<seq<string>>, words: seq<string>, i: nat, max: nat)
    requires Grouping(groups, words, max) && AreWords(words) && i < |groups|
    ensures var row := Row(groups[i]); (|row| <= max || IsWord(row)) && Wrapped(row, max) == [row]
  {
    GroupWords(groups, i);
    var row := Row(groups[i]);
    assert Allowed(groups[i], max);
    if |row| > max {
      var w := groups[i][0];
      assert IsWord(w) && row == w && groups[i] == [w];
      WordsOfRow([w]);
      assert [] + [w] == [w];
      assert Greedy([], [w], max) == Greedy([w], [], max) == [[w]];
      RowsCons([w], []);
    }
  }
}
