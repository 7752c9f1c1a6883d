/** String helpers shared by the naming rules and the parsers: ASCII lower-casing,
    joining with a separator, and splitting on a separator the way Go's
    `strings.Split` does for a non-empty separator. */
module Text {

  datatype Option<T> = None | Some(value: T) {
    function GetOr(default: T): T {
      match this
      case Some(v) => v
      case None => default
    }
  }

  predicate IsUpperChar(c: char) {
    'A' <= c <= 'Z'
  }

  predicate IsLetterChar(c: char) {
    'A' <= c <= 'Z' || 'a' <= c <= 'z'
  }

  /** ASCII lower-casing of one character. */
  function LowerChar(c: char): (r: char)
    ensures !IsUpperChar(r)
    ensures !IsLetterChar(c) ==> r == c
    ensures IsLetterChar(r) == IsLetterChar(c)
  {
    if IsUpperChar(c) then (c as int + 32) as char else c
  }

  /** ASCII lower-casing of a string, character by character. */
  function Lower(s: string): (r: string)
    ensures |r| == |s|
    ensures forall i :: 0 <= i < |s| ==> r[i] == LowerChar(s[i])
  {
    seq(|s|, i requires 0 <= i < |s| => LowerChar(s[i]))
  }

  predicate IsLower(s: string) {
    forall i :: 0 <= i < |s| ==> !IsUpperChar(s[i])
  }

  predicate IsLowerAll(ps: seq<string>) {
    forall i :: 0 <= i < |ps| ==> IsLower(ps[i])
  }

  function LowerAll(ps: seq<string>): (r: seq<string>)
    ensures |r| == |ps|
    ensures forall i :: 0 <= i < |ps| ==> r[i] == Lower(ps[i])
  {
    if ps == [] then [] else [Lower(ps[0])] + LowerAll(ps[1..])
  }

  lemma LowerOfLowerIsIdentity(s: string)
    requires IsLower(s)
    ensures Lower(s) == s
  {
  }

  lemma LowerAllOfLowerIsIdentity(ps: seq<string>)
    requires IsLowerAll(ps)
    ensures LowerAll(ps) == ps
  {
    forall i | 0 <= i < |ps| ensures LowerAll(ps)[i] == ps[i] {
      LowerOfLowerIsIdentity(ps[i]);
    }
  }

  lemma LowerAppend(a: string, b: string)
    ensures Lower(a + b) == Lower(a) + Lower(b)
  {
  }

  /** Lower-casing cannot create a non-letter character that was not already there. */
  lemma LowerKeepsNonLetterAbsent(s: string, c: char)
    requires !IsLetterChar(c) && c !in s
    ensures c !in Lower(s)
  {
  }

  /** The pieces joined with `sep` between consecutive pieces (C# `string.Join`, Go `strings.Join`). */
  function Join(parts: seq<string>, sep: string): string
  {
    if |parts| == 0 then ""
    else if |parts| == 1 then parts[0]
    else parts[0] + sep + Join(parts[1..], sep)
  }

  lemma JoinTwo(a: string, b: string, sep: string)
    ensures Join([a, b], sep) == a + sep + b
  {
    assert [a, b][1..] == [b];
  }

  lemma JoinThree(a: string, b: string, c: string, sep: string)
    ensures Join([a, b, c], sep) == a + sep + b + sep + c
  {
    assert [a, b, c][1..] == [b, c];
    JoinTwo(b, c, sep);
  }

  lemma JoinFive(a: string, b: string, c: string, d: string, e: string, sep: string)
    ensures Join([a, b, c, d, e], sep) == a + sep + b + sep + c + sep + d + sep + e
  {
    assert [a, b, c, d, e][1..] == [b, c, d, e];
    assert [b, c, d, e][1..] == [c, d, e];
    JoinThree(c, d, e, sep);
  }

  /** Equal strings with equal suffixes removed are equal. */
  lemma CancelSuffix(a: string, b: string, suffix: string)
    requires a + suffix == b + suffix
    ensures a == b
  {
    assert a == (a + suffix)[..|a|];
    assert b == (b + suffix)[..|b|];
  }

  lemma {:induction false} JoinAppend(parts: seq<string>, x: string, sep: string)
    requires parts != []
    ensures Join(parts + [x], sep) == Join(parts, sep) + sep + x
  {
    if |parts| == 1 {
      assert parts + [x] == [parts[0], x];
    } else {
      assert (parts + [x])[1..] == parts[1..] + [x];
      JoinAppend(parts[1..], x, sep);
    }
  }

  lemma {:induction false} LowerJoin(parts: seq<string>, c: char)
    requires !IsLetterChar(c)
    ensures Lower(Join(parts, [c])) == Join(LowerAll(parts), [c])
  {
    if |parts| >= 2 {
      LowerJoin(parts[1..], c);
      LowerAppend(parts[0] + [c], Join(parts[1..], [c]));
      LowerAppend(parts[0], [c]);
      assert LowerAll(parts)[1..] == LowerAll(parts[1..]);
    }
  }

  /** A character in neither the pieces nor the separator is not in their join. */
  lemma {:induction false} JoinAvoids(parts: seq<string>, sep: string, c: char)
    requires c !in sep
    requires forall i :: 0 <= i < |parts| ==> c !in parts[i]
    ensures c !in Join(parts, sep)
  {
    if |parts| >= 2 {
      JoinAvoids(parts[1..], sep, c);
    }
  }

  predicate OccursAt(s: string, sep: string, i: int) {
    0 <= i && i + |sep| <= |s| && s[i..i + |sep|] == sep
  }

  /** The position of the first occurrence of `sep` in `s`, if any. */
  function IndexOf(s: string, sep: string): (r: Option<nat>)
    requires |sep| > 0
    ensures r.Some? ==> OccursAt(s, sep, r.value)
    ensures r.Some? ==> forall j :: 0 <= j < r.value ==> !OccursAt(s, sep, j)
    ensures r.None? ==> forall j :: !OccursAt(s, sep, j)
    decreases |s|
  {
    if |s| < |sep| then None
    else if s[..|sep|] == sep then Some(0)
    else
      var rest := IndexOf(s[1..], sep);
      OccursShift(s, sep);
      match rest
      case Some(k) => Some(k + 1)
      case None => None
  }

  lemma OccursShift(s: string, sep: string)
    requires |s| > 0
    ensures forall j {:trigger OccursAt(s, sep, j)} :: 1 <= j ==> (OccursAt(s, sep, j) <==> OccursAt(s[1..], sep, j - 1))
  {
    forall j | 1 <= j ensures OccursAt(s, sep, j) <==> OccursAt(s[1..], sep, j - 1) {
      if j + |sep| <= |s| {
        var here, there := s[j..j + |sep|], s[1..][j - 1..j - 1 + |sep|];
        forall m | 0 <= m < |sep| ensures here[m] == there[m] {
        }
        assert here == there;
      }
    }
  }

  /** Go's `strings.Split(s, sep)` for a non-empty separator: the text between
      successive non-overlapping occurrences of `sep`, left to right. */
  function Split(s: string, sep: string): (r: seq<string>)
    requires |sep| > 0
    ensures |r| >= 1
    decreases |s|
  {
    match IndexOf(s, sep)
    case None => [s]
    case Some(i) => [s[..i]] + Split(s[i + |sep|..], sep)
  }

  /** Splitting and joining again gives back the input. */
  lemma {:induction false} JoinSplit(s: string, sep: string)
    requires |sep| > 0
    ensures Join(Split(s, sep), sep) == s
    decreases |s|
  {
    match IndexOf(s, sep)
    case None =>
    case Some(i) =>
      var rest := Split(s[i + |sep|..], sep);
      JoinSplit(s[i + |sep|..], sep);
      assert Split(s, sep) == [s[..i]] + rest;
      assert Join(Split(s, sep), sep) == s[..i] + sep + Join(rest, sep);
      assert s == s[..i] + s[i..i + |sep|] + s[i + |sep|..];
  }

  lemma SingleCharIndex(a: string, c: char, b: string)
    requires c !in a
    ensures IndexOf(a + [c] + b, [c]) == Some(|a|)
  {
    var s := a + [c] + b;
    assert s[|a|..|a| + 1] == [c];
    assert OccursAt(s, [c], |a|);
    forall j | 0 <= j < |a| ensures !OccursAt(s, [c], j) {
      assert s[j..j + 1] == [a[j]];
    }
  }

  lemma SingleCharAbsent(a: string, c: char)
    requires c !in a
    ensures IndexOf(a, [c]) == None
  {
    forall j | 0 <= j < |a| ensures !OccursAt(a, [c], j) {
      assert a[j..j + 1] == [a[j]];
    }
  }

  /** Joining pieces that do not contain the one-character separator and splitting
      again gives back the pieces. */
  lemma {:induction false} SplitJoin(parts: seq<string>, c: char)
    requires parts != []
    requires forall i :: 0 <= i < |parts| ==> c !in parts[i]
    ensures Split(Join(parts, [c]), [c]) == parts
  {
    if |parts| == 1 {
      SingleCharAbsent(parts[0], c);
    } else {
      SplitAtFirst(parts[0], c, Join(parts[1..], [c]));
      SplitJoin(parts[1..], c);
      assert [parts[0]] + parts[1..] == parts;
    }
  }

  /** Splitting at a first separator that is not in the text before it. */
  lemma SplitAtFirst(a: string, c: char, b: string)
    requires c !in a
    ensures Split(a + [c] + b, [c]) == [a] + Split(b, [c])
  {
    SingleCharIndex(a, c, b);
    var s := a + [c] + b;
    assert s[..|a|] == a;
    assert s[|a| + 1..] == b;
  }

  /** The later pieces of a split are the pieces of the text after the first separator. */
  lemma SplitTail(s: string, sep: string, i: nat, k: nat)
    requires |sep| > 0
    requires IndexOf(s, sep) == Some(i)
    requires 0 < k < |Split(s, sep)|
    ensures k - 1 < |Split(s[i + |sep|..], sep)|
    ensures Split(s, sep)[k] == Split(s[i + |sep|..], sep)[k - 1]
  {
    assert Split(s, sep)[1..] == Split(s[i + |sep|..], sep);
  }

  /** The text before the first occurrence of the separator does not contain it. */
  lemma TextBeforeFirstIsFree(s: string, sep: string, i: nat)
    requires |sep| > 0
    requires IndexOf(s, sep) == Some(i)
    ensures forall j :: !OccursAt(Split(s, sep)[0], sep, j)
  {
    var pre := s[..i];
    assert Split(s, sep)[0] == pre;
    forall j | OccursAt(pre, sep, j) ensures false {
      var w := pre[j..j + |sep|];
      assert w == s[j..j + |sep|] by {
        forall m | 0 <= m < |sep| ensures w[m] == s[j + m] {
          assert w[m] == pre[j + m];
        }
      }
      assert OccursAt(s, sep, j);
    }
  }

  /** Every piece produced by `Split` is free of the separator. */
  lemma {:induction false} SplitPiecesAreFree(s: string, sep: string, k: int)
    requires |sep| > 0
    requires 0 <= k < |Split(s, sep)|
    ensures forall j :: !OccursAt(Split(s, sep)[k], sep, j)
    decreases |s|
  {
    match IndexOf(s, sep)
    case None =>
    case Some(i) =>
      if k == 0 {
        TextBeforeFirstIsFree(s, sep, i);
      } else {
        SplitTail(s, sep, i, k);
        SplitPiecesAreFree(s[i + |sep|..], sep, k - 1);
      }
  }

  /** Every ':' replaced by "__", the way the console program rewrites configuration keys. */
  function ReplaceColons(s: string): (r: string)
    ensures ':' !in r
    ensures ':' !in s ==> r == s
  {
    if s == [] then []
    else (if s[0] == ':' then "__" else [s[0]]) + ReplaceColons(s[1..])
  }

  /** The rewriting works piece by piece: the rewrite of two texts put together is
      the two rewrites put together. */
  lemma {:induction false} ReplaceColonsAppend(a: string, b: string)
    ensures ReplaceColons(a + b) == ReplaceColons(a) + ReplaceColons(b)
    decreases |a|
  {
    if a == [] {
      assert a + b == b;
    } else {
      assert (a + b)[1..] == a[1..] + b;
      ReplaceColonsAppend(a[1..], b);
    }
  }

  /** Each ':' becomes "__", and the text on either side is rewritten on its own. */
  lemma ReplaceColonsColon(a: string, b: string)
    ensures ReplaceColons(a + ":" + b) == ReplaceColons(a) + "__" + ReplaceColons(b)
  {
    ReplaceColonsAppend(a + ":", b);
    ReplaceColonsAppend(a, ":");
  }
}
