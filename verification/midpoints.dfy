/** Parsing of a ';'-separated list of intermediate stops: split on every
    separator, then strip surrounding whitespace from each segment. */
module Midpoints {

  /** The whitespace characters removed by stripping. */
  predicate IsSpace(c: char) {
    c == ' ' || c == '\t' || c == '\n' || c == '\r' || c == '\U{000B}' || c == '\U{000C}'
  }

  predicate AllSpace(s: string) {
    forall i | 0 <= i < |s| :: IsSpace(s[i])
  }

  function Count(s: string, c: char): nat {
    if s == [] then 0 else (if s[0] == c then 1 else 0) + Count(s[1..], c)
  }

  /** Splitting on a separator: the pieces between separators, in order; an
      empty text yields one empty piece. */
  function Split(s: string, sep: char): (r: seq<string>)
    ensures |r| >= 1
  {
    if s == [] then [[]]
    else
      var rest := Split(s[1..], sep);
      if s[0] == sep then [[]] + rest
      else [[s[0]] + rest[0]] + rest[1..]
  }

  /** Joining pieces with a separator, the inverse of `Split`. */
  function Join(parts: seq<string>, sep: char): string
    requires |parts| >= 1
  {
    if |parts| == 1 then parts[0] else parts[0] + [sep] + Join(parts[1..], sep)
  }

  lemma {:induction false} SplitCount(s: string, sep: char)
    ensures |Split(s, sep)| == Count(s, sep) + 1
  {
    if s != [] {
      SplitCount(s[1..], sep);
    }
  }

  lemma {:induction false} SplitPiecesHaveNoSeparator(s: string, sep: char)
    ensures forall i | 0 <= i < |Split(s, sep)| :: sep !in Split(s, sep)[i]
  {
    if s != [] {
      SplitPiecesHaveNoSeparator(s[1..], sep);
      var rest := Split(s[1..], sep);
      if s[0] != sep {
        assert sep !in rest[0];
        assert sep !in [s[0]] + rest[0];
      }
    }
  }

  lemma {:induction false} JoinSplit(s: string, sep: char)
    ensures Join(Split(s, sep), sep) == s
  {
    if s != [] {
      JoinSplit(s[1..], sep);
      var rest := Split(s[1..], sep);
      if s[0] == sep {
        assert Split(s, sep)[1..] == rest;
      } else {
        var r := Split(s, sep);
        assert r[1..] == rest[1..];
        if |rest| == 1 {
          assert Join(r, sep) == [s[0]] + rest[0];
        } else {
          assert Join(rest, sep) == rest[0] + [sep] + Join(rest[1..], sep);
          assert Join(r, sep) == ([s[0]] + rest[0]) + [sep] + Join(rest[1..], sep);
        }
      }
    }
  }

  function TrimLeft(s: string): string {
    if s != [] && IsSpace(s[0]) then TrimLeft(s[1..]) else s
  }

  function TrimRight(s: string): string {
    if s != [] && IsSpace(s[|s| - 1]) then TrimRight(s[..|s| - 1]) else s
  }

  /** Removal of leading and trailing whitespace. */
  function Strip(s: string): string {
    TrimRight(TrimLeft(s))
  }

  lemma {:induction false} TrimLeftSplits(s: string) returns (k: nat)
    ensures k <= |s| && AllSpace(s[..k]) && TrimLeft(s) == s[k..]
    ensures TrimLeft(s) == [] || !IsSpace(TrimLeft(s)[0])
  {
    if s != [] && IsSpace(s[0]) {
      var k' := TrimLeftSplits(s[1..]);
      assert s[..k' + 1] == [s[0]] + s[1..][..k'];
      assert s[1..][k'..] == s[k' + 1..];
      k := k' + 1;
    } else {
      k := 0;
    }
  }

  lemma {:induction false} TrimRightSplits(s: string) returns (k: nat)
    ensures k <= |s| && AllSpace(s[k..]) && TrimRight(s) == s[..k]
    ensures TrimRight(s) == [] || !IsSpace(TrimRight(s)[|TrimRight(s)| - 1])
  {
    if s != [] && IsSpace(s[|s| - 1]) {
      var init := s[..|s| - 1];
      k := TrimRightSplits(init);
      assert s[k..] == init[k..] + [s[|s| - 1]];
      assert init[..k] == s[..k];
    } else {
      k := |s|;
    }
  }

  lemma TrimRightKeepsFirst(s: string)
    requires s != [] && !IsSpace(s[0])
    ensures TrimRight(s) != [] && TrimRight(s)[0] == s[0]
  {
    var k := TrimRightSplits(s);
  }

  /** A stripped text is the original with a whitespace-only prefix and a
      whitespace-only suffix removed, and itself neither starts nor ends with
      whitespace. */
  lemma StripIsMaximalTrim(s: string) returns (i: nat, j: nat)
    ensures i <= j <= |s| && AllSpace(s[..i]) && AllSpace(s[j..]) && Strip(s) == s[i..j]
    ensures Strip(s) != [] ==> !IsSpace(Strip(s)[0]) && !IsSpace(Strip(s)[|Strip(s)| - 1])
  {
    i := TrimLeftSplits(s);
    var t := s[i..];
    var k := TrimRightSplits(t);
    j := i + k;
    assert t[..k] == s[i..j];
    assert t[k..] == s[j..];
    if t != [] && !IsSpace(t[0]) {
      TrimRightKeepsFirst(t);
    }
  }

  /** The stop list of a ';'-separated request string. */
  function SplitMidpoints(midpoints: string): (r: seq<string>)
    ensures |r| == |Split(midpoints, ';')|
    ensures forall i | 0 <= i < |r| :: r[i] == Strip(Split(midpoints, ';')[i])
  {
    var parts := Split(midpoints, ';');
    seq(|parts|, i requires 0 <= i < |parts| => Strip(parts[i]))
  }

  /** One stop per ';'-separated segment, never an empty list, and every stop
      free of separators and of surrounding whitespace. */
  lemma SplitMidpointsShape(midpoints: string)
    ensures |SplitMidpoints(midpoints)| == Count(midpoints, ';') + 1
    ensures forall i | 0 <= i < |SplitMidpoints(midpoints)| ::
      var stop := SplitMidpoints(midpoints)[i];
      ';' !in stop && (stop != [] ==> !IsSpace(stop[0]) && !IsSpace(stop[|stop| - 1]))
  {
    SplitCount(midpoints, ';');
    SplitPiecesHaveNoSeparator(midpoints, ';');
    var parts := Split(midpoints, ';');
    forall i | 0 <= i < |parts|
      ensures ';' !in Strip(parts[i])
      ensures Strip(parts[i]) != [] ==> !IsSpace(Strip(parts[i])[0]) && !IsSpace(Strip(parts[i])[|Strip(parts[i])| - 1])
    {
      var a, b := StripIsMaximalTrim(parts[i]);
      assert ';' !in parts[i];
      assert forall c | c in parts[i][a..b] :: c in parts[i];
    }
  }
}
