/**
 Python string operations the SQL-text builders rely on: `sep.join(parts)`
 and splitting a script into its newline-separated lines.
 */
module Text {

  /** Total number of characters in `parts`. */
  function TotalLength(parts: seq<string>): (n: nat)
  {
    if parts == [] then 0 else |parts[0]| + TotalLength(parts[1..])
  }

  /** Python's `sep.join(parts)`: the parts with `sep` between consecutive ones. */
  function Join(parts: seq<string>, sep: string): (r: string)
    ensures parts == [] ==> r == ""
    ensures |parts| == 1 ==> r == parts[0]
  {
    if parts == [] then ""
    else if |parts| == 1 then parts[0]
    else parts[0] + sep + Join(parts[1..], sep)
  }

  /** Where part `i` starts in `Join(parts, sep)`: the parts before it and one separator after each. */
  function Offset(parts: seq<string>, sep: string, i: nat): (o: nat)
    requires i <= |parts|
  {
    TotalLength(parts[..i]) + i * |sep|
  }

  lemma {:induction false} OffsetStep(parts: seq<string>, sep: string, i: nat)
    requires 0 < i <= |parts|
    ensures Offset(parts, sep, i) == |parts[0]| + |sep| + Offset(parts[1..], sep, i - 1)
  {
    assert parts[..i][1..] == parts[1..][..i - 1];
  }

  lemma {:induction false} OffsetNext(parts: seq<string>, sep: string, i: nat)
    requires i < |parts|
    ensures Offset(parts, sep, i + 1) == Offset(parts, sep, i) + |parts[i]| + |sep|
  {
    if i > 0 {
      OffsetStep(parts, sep, i);
      OffsetStep(parts, sep, i + 1);
      OffsetNext(parts[1..], sep, i - 1);
    } else {
      assert parts[..1][1..] == [];
    }
  }

  /** `n` parts joined have `n - 1` separators, and nothing else beyond the parts. */
  lemma {:induction false} JoinLength(parts: seq<string>, sep: string)
    requires parts != []
    ensures |Join(parts, sep)| == TotalLength(parts) + (|parts| - 1) * |sep|
  {
    if |parts| > 1 {
      JoinLength(parts[1..], sep);
    } else {
      assert parts[1..] == [];
    }
  }

  /** Part `i` stands in the joined string at its offset, so the parts keep their order. */
  lemma {:induction false} JoinPartAt(parts: seq<string>, sep: string, i: nat)
    requires i < |parts|
    ensures Offset(parts, sep, i) + |parts[i]| <= |Join(parts, sep)|
    ensures Join(parts, sep)[Offset(parts, sep, i)..Offset(parts, sep, i) + |parts[i]|] == parts[i]
  {
    var j := Join(parts, sep);
    if i == 0 {
      assert parts[..0] == [];
      assert j[..|parts[0]|] == parts[0];
    } else {
      var rest := Join(parts[1..], sep);
      var k := |parts[0]| + |sep|;
      assert j == parts[0] + sep + rest;
      OffsetStep(parts, sep, i);
      JoinPartAt(parts[1..], sep, i - 1);
      var o := Offset(parts[1..], sep, i - 1);
      assert j[k + o..k + o + |parts[i]|] == rest[o..o + |parts[i]|];
    }
  }

  /**
   Part `i` stands at its offset in the joined string, and after it a separator unless
   it is the last part: `JoinPartAt` and `JoinSeparatorAt` in one statement.
   */
  lemma {:induction false} JoinAt(parts: seq<string>, sep: string, i: nat)
    requires i < |parts|
    ensures var o := Offset(parts, sep, i);
      o + |parts[i]| <= |Join(parts, sep)| && Join(parts, sep)[o..o + |parts[i]|] == parts[i]
    ensures var e := Offset(parts, sep, i) + |parts[i]|;
      i + 1 < |parts| ==> e + |sep| <= |Join(parts, sep)| && Join(parts, sep)[e..e + |sep|] == sep
  {
    JoinPartAt(parts, sep, i);
    if i + 1 < |parts| {
      JoinSeparatorAt(parts, sep, i);
    }
  }

  /** Between part `i` and part `i + 1` stands exactly one separator. */
  lemma {:induction false} JoinSeparatorAt(parts: seq<string>, sep: string, i: nat)
    requires i + 1 < |parts|
    ensures Offset(parts, sep, i) + |parts[i]| + |sep| <= |Join(parts, sep)|
    ensures Offset(parts, sep, i + 1) == Offset(parts, sep, i) + |parts[i]| + |sep|
    ensures Join(parts, sep)[Offset(parts, sep, i) + |parts[i]|..Offset(parts, sep, i) + |parts[i]| + |sep|] == sep
  {
    var j := Join(parts, sep);
    OffsetNext(parts, sep, i);
    if i == 0 {
      assert parts[..0] == [];
      assert j == parts[0] + sep + Join(parts[1..], sep);
      assert j[|parts[0]|..|parts[0]| + |sep|] == sep;
    } else {
      var rest := Join(parts[1..], sep);
      var k := |parts[0]| + |sep|;
      assert j == parts[0] + sep + rest;
      OffsetStep(parts, sep, i);
      OffsetStep(parts, sep, i + 1);
      JoinSeparatorAt(parts[1..], sep, i - 1);
      var o := Offset(parts[1..], sep, i - 1);
      var e := Offset(parts[1..], sep, i);
      assert j[k + o + |parts[i]|..k + e] == rest[o + |parts[i]|..e];
    }
  }

  /** Joining parts and a separator free of `c` gives a string free of `c`. */
  lemma {:induction false} JoinAvoids(parts: seq<string>, sep: string, c: char)
    requires forall k :: 0 <= k < |parts| ==> c !in parts[k]
    requires c !in sep
    ensures c !in Join(parts, sep)
  {
    if |parts| > 1 {
      JoinAvoids(parts[1..], sep, c);
      var rest := Join(parts[1..], sep);
      assert Join(parts, sep) == parts[0] + sep + rest;
      assert c !in parts[0];
    }
  }

  /** `head + body + tail` starts with `head` and ends with `tail`. */
  lemma {:induction false} FramedBy(head: string, body: string, tail: string)
    ensures var s := head + body + tail;
      |head| + |tail| <= |s| && s[..|head|] == head && s[|s| - |tail|..] == tail
  {
    var s := head + body + tail;
    assert s[..|head|] == head;
    assert s[|s| - |tail|..] == tail;
  }

  /** The lines of `s`, cut at every newline character (Python's `s.split("\n")`). */
  function SplitLines(s: string): (r: seq<string>)
    ensures |r| > 0
  {
    if s == [] then [""]
    else if s[0] == '\n' then [""] + SplitLines(s[1..])
    else
      var tail := SplitLines(s[1..]);
      [[s[0]] + tail[0]] + tail[1..]
  }

  /** A string without newline is one line. */
  lemma {:induction false} SplitLinesSingle(a: string)
    requires '\n' !in a
    ensures SplitLines(a) == [a]
  {
    if a != [] {
      SplitLinesSingle(a[1..]);
      assert [a[0]] + a[1..] == a;
    }
  }

  /** A line followed by a newline is cut off as the first line. */
  lemma {:induction false} SplitLinesConcat(a: string, b: string)
    requires '\n' !in a
    ensures SplitLines(a + "\n" + b) == [a] + SplitLines(b)
  {
    var s := a + "\n" + b;
    if a == [] {
      assert s == "\n" + b;
      assert s[1..] == b;
    } else {
      assert s[0] == a[0];
      assert s[1..] == a[1..] + "\n" + b;
      SplitLinesConcat(a[1..], b);
      assert [a[0]] + a[1..] == a;
    }
  }

  /** Splitting newline-joined lines gives the lines back, when none holds a newline. */
  lemma {:induction false} SplitJoinedLines(lines: seq<string>)
    requires lines != []
    requires forall k :: 0 <= k < |lines| ==> '\n' !in lines[k]
    ensures SplitLines(Join(lines, "\n")) == lines
  {
    if |lines| == 1 {
      SplitLinesSingle(lines[0]);
    } else {
      SplitJoinedLines(lines[1..]);
      SplitLinesConcat(lines[0], Join(lines[1..], "\n"));
      assert [lines[0]] + lines[1..] == lines;
    }
  }

  /** Three newline-free lines joined by newlines split back into those three lines. */
  lemma {:induction false} SplitThreeLines(a: string, b: string, c: string)
    requires '\n' !in a && '\n' !in b && '\n' !in c
    ensures SplitLines(a + "\n" + b + "\n" + c) == [a, b, c]
  {
    SplitLinesSingle(c);
    SplitLinesConcat(b, c);
    SplitLinesConcat(a, b + "\n" + c);
    assert a + "\n" + b + "\n" + c == a + "\n" + (b + "\n" + c);
  }

  /** Five lines joined by newlines, written out. */
  lemma {:induction false} JoinFiveLines(a: string, b: string, c: string, d: string, e: string)
    ensures Join([a, b, c, d, e], "\n") == a + "\n" + b + "\n" + c + "\n" + d + "\n" + e
  {
    assert [d, e][1..] == [e];
    var de := Join([d, e], "\n");
    assert de == d + "\n" + e;
    assert [c, d, e][1..] == [d, e];
    var cde := Join([c, d, e], "\n");
    assert cde == c + "\n" + de;
    assert [b, c, d, e][1..] == [c, d, e];
    var bcde := Join([b, c, d, e], "\n");
    assert bcde == b + "\n" + cde;
    assert [a, b, c, d, e][1..] == [b, c, d, e];
    assert Join([a, b, c, d, e], "\n") == a + "\n" + bcde;
  }
}
