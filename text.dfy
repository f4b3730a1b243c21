/**
  Line-oriented text: Python's '\n'.join and str.split('\n'), and
  fixed templates with holes, the shape of every generated script line.
 */
module Text {
  import opened Wrappers

  /**
    '\n'.join(lines): empty for no lines, otherwise from the first line to the
    last, with a newline wherever two lines meet.
   */
  function Join(lines: seq<string>): (r: string)
    ensures |lines| == 0 ==> r == ""
    ensures |lines| >= 1 ==> IsPrefix(lines[0], r) && IsSuffix(lines[|lines| - 1], r)
    ensures |lines| >= 2 ==> '\n' in r
  {
    if |lines| == 0 then ""
    else if |lines| == 1 then lines[0]
    else
      var rest := Join(lines[1..]);
      SuffixExtend(lines[|lines| - 1], lines[0] + "\n", rest);
      assert (lines[0] + "\n" + rest)[|lines[0]|] == '\n';
      lines[0] + "\n" + rest
  }

  lemma SuffixExtend(p: string, a: string, b: string)
    requires IsSuffix(p, b)
    ensures IsSuffix(p, a + b)
  {
    assert (a + b)[|a + b| - |p|..] == b[|b| - |p|..];
  }

  /** s.split('\n'): the pieces between newlines; there is always at least one. */
  function SplitLines(s: string): (r: seq<string>)
    ensures |r| >= 1
  {
    if s == [] then [""]
    else
      var rest := SplitLines(s[1..]);
      if s[0] == '\n' then [""] + rest else [[s[0]] + rest[0]] + rest[1..]
  }

  predicate NoNewline(s: string) {
    '\n' !in s
  }

  /** Text before any newline stays in the first piece. */
  lemma {:induction false} SplitLinesPrefix(a: string, s: string)
    requires NoNewline(a)
    ensures SplitLines(a + s) == [a + SplitLines(s)[0]] + SplitLines(s)[1..]
  {
    if a != [] {
      assert (a + s)[1..] == a[1..] + s;
      assert a[0] in a;
      SplitLinesPrefix(a[1..], s);
      assert [a[0]] + (a[1..] + SplitLines(s)[0]) == a + SplitLines(s)[0];
    } else {
      var r := SplitLines(s);
      assert a + s == s;
      assert a + r[0] == r[0];
      assert [r[0]] + r[1..] == r;
    }
  }

  /** Splitting a join of newline-free lines gives the lines back. */
  lemma {:induction false} SplitJoin(lines: seq<string>)
    requires |lines| >= 1
    requires forall k :: 0 <= k < |lines| ==> NoNewline(lines[k])
    ensures SplitLines(Join(lines)) == lines
  {
    if |lines| == 1 {
      SplitLinesPrefix(lines[0], "");
      assert lines[0] + "" == lines[0];
    } else {
      var tail := Join(lines[1..]);
      SplitJoin(lines[1..]);
      assert lines[0] + "\n" + tail == lines[0] + ("\n" + tail);
      SplitLinesPrefix(lines[0], "\n" + tail);
      assert ("\n" + tail)[1..] == tail;
      assert SplitLines("\n" + tail) == [""] + lines[1..];
      assert lines[0] + "" == lines[0];
    }
  }

  /** The join of one line in front of others. */
  lemma JoinCons(head: string, lines: seq<string>)
    requires |lines| >= 1
    ensures Join([head] + lines) == head + "\n" + Join(lines)
  {
    assert ([head] + lines)[1..] == lines;
  }

  /**
    A template: literal pieces lits[0], ..., lits[n] with n holes between
    them; Fill puts holes[k] between lits[k] and lits[k + 1].
   */
  function Fill(lits: seq<string>, holes: seq<string>): string
    requires |lits| == |holes| + 1
  {
    if holes == [] then lits[0] else lits[0] + holes[0] + Fill(lits[1..], holes[1..])
  }

  /** Index of the first occurrence of c in s, or |s| when there is none. */
  function IndexOf(s: string, c: char): (j: nat)
    ensures j <= |s|
    ensures j < |s| ==> s[j] == c
    ensures forall k :: 0 <= k < j ==> s[k] != c
  {
    if s == [] then 0 else if s[0] == c then 0 else 1 + IndexOf(s[1..], c)
  }

  predicate IsPrefix(p: string, s: string) {
    |p| <= |s| && s[..|p|] == p
  }

  predicate IsSuffix(p: string, s: string) {
    |p| <= |s| && s[|s| - |p|..] == p
  }

  /**
    Reads the holes back out of a filled template: each inner hole runs up to
    the first character of the literal after it, the last hole up to the
    final literal, which must end the text.
   */
  function Unfill(lits: seq<string>, s: string): Option<seq<string>>
    requires |lits| >= 1
    decreases |lits|
  {
    if !IsPrefix(lits[0], s) then None
    else
      var rest := s[|lits[0]|..];
      if |lits| == 1 then (if rest == [] then Some([]) else None)
      else if |lits| == 2 then
        (if IsSuffix(lits[1], rest) then Some([rest[..|rest| - |lits[1]|]]) else None)
      else if lits[1] == [] then None
      else
        var j := IndexOf(rest, lits[1][0]);
        match Unfill(lits[1..], rest[j..])
        case None => None
        case Some(hs) => Some([rest[..j]] + hs)
  }

  /** Holes that Unfill can find again: no inner hole holds the character that starts the next literal. */
  predicate Separable(lits: seq<string>, holes: seq<string>)
    requires |lits| == |holes| + 1
  {
    forall k :: 1 <= k < |lits| - 1 ==> lits[k] != [] && lits[k][0] !in holes[k - 1]
  }

  lemma {:induction false} IndexOfAfter(a: string, b: string, c: char)
    requires c !in a
    requires b != [] && b[0] == c
    ensures IndexOf(a + b, c) == |a|
  {
    if a != [] {
      assert (a + b)[0] == a[0];
      assert (a + b)[1..] == a[1..] + b;
      IndexOfAfter(a[1..], b, c);
    } else {
      assert a + b == b;
    }
  }

  lemma {:induction false} FillStartsWith(lits: seq<string>, holes: seq<string>)
    requires |lits| == |holes| + 1
    ensures IsPrefix(lits[0], Fill(lits, holes))
  {
    if holes != [] {
      var f := Fill(lits, holes);
      assert f == lits[0] + (holes[0] + Fill(lits[1..], holes[1..]));
    }
  }

  /** Unfill is the inverse of Fill on separable holes. */
  lemma {:induction false} UnfillFill(lits: seq<string>, holes: seq<string>)
    requires |lits| == |holes| + 1
    requires Separable(lits, holes)
    ensures Unfill(lits, Fill(lits, holes)) == Some(holes)
    decreases |lits|
  {
    var s := Fill(lits, holes);
    if holes == [] {
      assert s[|lits[0]|..] == [];
    } else if |lits| == 2 {
      UnfillLastHole(lits, holes);
    } else {
      SeparableTail(lits, holes);
      UnfillFill(lits[1..], holes[1..]);
      UnfillInnerHole(lits, holes);
    }
  }

  /** With one hole, the hole is what lies between the two literals. */
  lemma UnfillLastHole(lits: seq<string>, holes: seq<string>)
    requires |lits| == 2 && |holes| == 1
    ensures Unfill(lits, Fill(lits, holes)) == Some(holes)
  {
    var s := Fill(lits, holes);
    assert Fill(lits[1..], holes[1..]) == lits[1];
    assert s == lits[0] + (holes[0] + lits[1]);
    var rest := s[|lits[0]|..];
    assert rest == holes[0] + lits[1];
    assert IsPrefix(lits[0], s);
    assert IsSuffix(lits[1], rest);
    assert rest[..|rest| - |lits[1]|] == holes[0];
    assert [holes[0]] == holes;
  }

  lemma SeparableTail(lits: seq<string>, holes: seq<string>)
    requires |lits| == |holes| + 1 && |holes| >= 1
    requires Separable(lits, holes)
    ensures Separable(lits[1..], holes[1..])
  {
    forall k | 1 <= k < |lits[1..]| - 1
      ensures lits[1..][k] != [] && lits[1..][k][0] !in holes[1..][k - 1]
    {
      assert lits[1..][k] == lits[k + 1];
      assert holes[1..][k - 1] == holes[k];
    }
  }

  /** The first hole ends where the next literal's first character first occurs. */
  lemma UnfillInnerHole(lits: seq<string>, holes: seq<string>)
    requires |lits| == |holes| + 1 && |lits| >= 3
    requires Separable(lits, holes)
    requires Unfill(lits[1..], Fill(lits[1..], holes[1..])) == Some(holes[1..])
    ensures Unfill(lits, Fill(lits, holes)) == Some(holes)
  {
    var s := Fill(lits, holes);
    FillFirstHole(lits, holes);
    var rest := s[|lits[0]|..];
    UnfillStep(lits, s, Fill(lits[1..], holes[1..]), holes[0], holes[1..]);
    assert [holes[0]] + holes[1..] == holes;
  }

  /** Where a filled template's first hole starts and ends. */
  lemma FillFirstHole(lits: seq<string>, holes: seq<string>)
    requires |lits| == |holes| + 1 && |lits| >= 3
    requires Separable(lits, holes)
    ensures IsPrefix(lits[0], Fill(lits, holes))
    ensures lits[1] != []
    ensures var rest := Fill(lits, holes)[|lits[0]|..];
      IndexOf(rest, lits[1][0]) == |holes[0]| &&
      rest[..|holes[0]|] == holes[0] && rest[|holes[0]|..] == Fill(lits[1..], holes[1..])
  {
    var tail := Fill(lits[1..], holes[1..]);
    assert Fill(lits, holes) == lits[0] + (holes[0] + tail);
    FillStartsWith(lits[1..], holes[1..]);
    assert lits[1..][0] == lits[1];
    assert lits[1] != [] && lits[1][0] !in holes[0];
    HoleBeforeSeparator(lits[0], holes[0], tail, lits[1][0]);
  }

  /** In head + hole + tail, the hole ends at the first c when tail starts with c and the hole has none. */
  lemma HoleBeforeSeparator(head: string, hole: string, tail: string, c: char)
    requires c !in hole && tail != [] && tail[0] == c
    ensures var s := head + (hole + tail);
      IsPrefix(head, s) &&
      var rest := s[|head|..];
      IndexOf(rest, c) == |hole| && rest[..|hole|] == hole && rest[|hole|..] == tail
  {
    var s := head + (hole + tail);
    var rest := s[|head|..];
    assert rest == hole + tail;
    IndexOfAfter(hole, tail, c);
  }

  /** One step of Unfill past an inner hole. */
  lemma UnfillStep(lits: seq<string>, s: string, tail: string, hole: string, hs: seq<string>)
    requires |lits| >= 3 && lits[1] != [] && IsPrefix(lits[0], s)
    requires var rest := s[|lits[0]|..];
      IndexOf(rest, lits[1][0]) == |hole| && rest[..|hole|] == hole && rest[|hole|..] == tail
    requires Unfill(lits[1..], tail) == Some(hs)
    ensures Unfill(lits, s) == Some([hole] + hs)
  {
  }

  /** A filled template holds character c only if a literal or a hole does. */
  lemma {:induction false} FillAvoids(lits: seq<string>, holes: seq<string>, c: char)
    requires |lits| == |holes| + 1
    requires forall k :: 0 <= k < |lits| ==> c !in lits[k]
    requires forall k :: 0 <= k < |holes| ==> c !in holes[k]
    ensures c !in Fill(lits, holes)
    decreases |holes|
  {
    if holes != [] {
      assert c !in lits[0] && c !in holes[0];
      FillAvoids(lits[1..], holes[1..], c);
    }
  }

  /** A character of any hole appears in the filled template. */
  lemma {:induction false} FillHoleIn(lits: seq<string>, holes: seq<string>, k: nat, c: char)
    requires |lits| == |holes| + 1 && k < |holes| && c in holes[k]
    ensures c in Fill(lits, holes)
    decreases k
  {
    var tail := Fill(lits[1..], holes[1..]);
    assert Fill(lits, holes) == lits[0] + holes[0] + tail;
    if k > 0 {
      assert holes[1..][k - 1] == holes[k];
      FillHoleIn(lits[1..], holes[1..], k - 1, c);
    }
  }

  /**
    Whatever Unfill reads back is exact: one hole per gap, and filling the
    template with them gives the text again, so nothing outside the holes
    varies.
   */
  lemma {:induction false} FillUnfill(lits: seq<string>, s: string)
    requires |lits| >= 1
    ensures Unfill(lits, s).Some? ==>
      |Unfill(lits, s).value| == |lits| - 1 && Fill(lits, Unfill(lits, s).value) == s
    decreases |lits|
  {
    if Unfill(lits, s).Some? {
      if |lits| == 1 {
        assert s == lits[0] + s[|lits[0]|..];
      } else if |lits| == 2 {
        FillUnfillLast(lits, s);
      } else {
        var rest := s[|lits[0]|..];
        var j := IndexOf(rest, lits[1][0]);
        FillUnfill(lits[1..], rest[j..]);
        var hs := Unfill(lits[1..], rest[j..]).value;
        assert Unfill(lits, s).value == [rest[..j]] + hs;
        FillUnfillStep(lits, s, rest[..j], rest[j..], hs);
      }
    }
  }

  /** With one hole, the text is the first literal, the hole read back, and the last literal. */
  lemma FillUnfillLast(lits: seq<string>, s: string)
    requires |lits| == 2 && Unfill(lits, s).Some?
    ensures |Unfill(lits, s).value| == 1 && Fill(lits, Unfill(lits, s).value) == s
  {
    var rest := s[|lits[0]|..];
    var h := rest[..|rest| - |lits[1]|];
    assert s == lits[0] + rest;
    assert rest == h + lits[1];
    assert Fill(lits[1..], [h][1..]) == lits[1];
  }

  /** Text made of the first literal, a hole and a filled tail is the template filled with that hole first. */
  lemma FillUnfillStep(lits: seq<string>, s: string, hole: string, tail: string, hs: seq<string>)
    requires |lits| >= 2 && |hs| == |lits| - 2
    requires s == lits[0] + (hole + tail) && Fill(lits[1..], hs) == tail
    ensures Fill(lits, [hole] + hs) == s
  {
    assert ([hole] + hs)[1..] == hs;
  }

  /** A filled template has no newline exactly when none of its holes has one. */
  lemma FillNewlines(lits: seq<string>, holes: seq<string>)
    requires |lits| == |holes| + 1
    requires forall k :: 0 <= k < |lits| ==> NoNewline(lits[k])
    ensures NoNewline(Fill(lits, holes)) <==> forall k :: 0 <= k < |holes| ==> NoNewline(holes[k])
  {
    if forall k :: 0 <= k < |holes| ==> NoNewline(holes[k]) {
      FillAvoids(lits, holes, '\n');
    } else {
      var k :| 0 <= k < |holes| && !NoNewline(holes[k]);
      FillHoleIn(lits, holes, k, '\n');
    }
  }

  /**
    A template line: filled from newline-free pieces and separable holes, it
    is one line that starts with its first literal and reads back as its holes.
   */
  lemma FillLine(lits: seq<string>, holes: seq<string>)
    requires |lits| == |holes| + 1
    requires forall k :: 0 <= k < |lits| ==> NoNewline(lits[k])
    requires forall k :: 0 <= k < |holes| ==> NoNewline(holes[k])
    requires Separable(lits, holes)
    ensures NoNewline(Fill(lits, holes)) && IsPrefix(lits[0], Fill(lits, holes))
    ensures Unfill(lits, Fill(lits, holes)) == Some(holes)
  {
    FillAvoids(lits, holes, '\n');
    FillStartsWith(lits, holes);
    UnfillFill(lits, holes);
  }

  /**
    A fixed head in front of a join of lines that are not empty: the text
    starts with the head, is nothing more exactly when there are no lines,
    and ends with the last line.
   */
  lemma HeadThenJoin(head: string, lines: seq<string>)
    requires forall k :: 0 <= k < |lines| ==> lines[k] != ""
    ensures IsPrefix(head, head + Join(lines))
    ensures |lines| == 0 <==> head + Join(lines) == head
    ensures |lines| >= 1 ==> IsSuffix(lines[|lines| - 1], head + Join(lines))
  {
    var t := head + Join(lines);
    assert t[..|head|] == head;
    if |lines| >= 1 {
      assert |Join(lines)| >= |lines[0]| > 0;
      SuffixExtend(lines[|lines| - 1], head, Join(lines));
    }
  }

  /** A newline-free head, a newline and a join of newline-free lines split back into the head and the lines. */
  lemma HeadSplit(head: string, lines: seq<string>)
    requires NoNewline(head) && |lines| > 0
    requires forall k :: 0 <= k < |lines| ==> NoNewline(lines[k])
    ensures SplitLines(head + "\n" + Join(lines)) == [head] + lines
  {
    JoinCons(head, lines);
    var all := [head] + lines;
    forall k | 0 <= k < |all| ensures NoNewline(all[k]) {
      if k > 0 { assert all[k] == lines[k - 1]; }
    }
    SplitJoin(all);
  }
}
