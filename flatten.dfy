/**
 * The string normalisation used by the collection handlers: lower-casing a
 * requested name, and joining a list of names into one `", "`-delimited string.
 * `Split` is the reading side of that encoding, used to state that joining
 * keeps every name, in order.
 */
module Flatten {

  /** The delimiter the handlers pass to `join`. */
  const Separator: string := ", "

  // ---------------------------------------------------------------------------
  // Lower-casing (restricted to ASCII letters)

  predicate IsUpper(c: char)
  {
    'A' <= c <= 'Z'
  }

  function LowerChar(c: char): char
  {
    if IsUpper(c) then (c as int + 32) as char else c
  }

  /** `toLowerCase` on ASCII: each upper-case letter becomes its lower-case form. */
  function ToLower(s: string): (r: string)
    ensures |r| == |s|
    ensures forall i :: 0 <= i < |s| ==> r[i] == LowerChar(s[i])
    decreases |s|
  {
    if s == [] then [] else [LowerChar(s[0])] + ToLower(s[1..])
  }

  /** Lower-casing leaves no upper-case letter and changes nothing but upper-case letters. */
  lemma ToLowerSpec(s: string)
    ensures forall i :: 0 <= i < |s| ==> !IsUpper(ToLower(s)[i])
    ensures forall i :: 0 <= i < |s| && !IsUpper(s[i]) ==> ToLower(s)[i] == s[i]
    ensures forall i :: 0 <= i < |s| && IsUpper(s[i]) ==> ToLower(s)[i] as int == s[i] as int + 32
  {
  }

  /** Lower-casing twice is lower-casing once. */
  lemma ToLowerIdempotent(s: string)
    ensures ToLower(ToLower(s)) == ToLower(s)
  {
    assert forall i :: 0 <= i < |s| ==> LowerChar(LowerChar(s[i])) == LowerChar(s[i]);
  }

  // ---------------------------------------------------------------------------
  // Joining

  /** JavaScript's `Array.prototype.join(sep)` on strings. */
  function Join(parts: seq<string>, sep: string): (r: string)
    ensures parts == [] ==> r == ""
    ensures parts != [] ==> |r| == TotalLength(parts) + (|parts| - 1) * |sep|
    decreases |parts|
  {
    if |parts| == 0 then ""
    else if |parts| == 1 then parts[0]
    else parts[0] + sep + Join(parts[1..], sep)
  }

  /** The summed length of `parts`. */
  function TotalLength(parts: seq<string>): (n: nat)
    decreases |parts|
  {
    if parts == [] then 0 else |parts[0]| + TotalLength(parts[1..])
  }

  /** Where `parts[i]` starts in `Join(parts, sep)`: after each earlier part and its separator. */
  function Offset(parts: seq<string>, sep: string, i: nat): (o: nat)
    requires i <= |parts|
    decreases i
  {
    if i == 0 then 0 else |parts[0]| + |sep| + Offset(parts[1..], sep, i - 1)
  }

  /** Joining keeps every part, in source order: `parts[i]` sits at `Offset(i)`. */
  lemma {:induction false} JoinPlacesPart(parts: seq<string>, sep: string, i: nat)
    requires i < |parts|
    ensures Offset(parts, sep, i) + |parts[i]| <= |Join(parts, sep)|
    ensures Join(parts, sep)[Offset(parts, sep, i)..Offset(parts, sep, i) + |parts[i]|] == parts[i]
    decreases i
  {
    if i == 0 {
      if |parts| > 1 {
        SliceOfConcat([], parts[0], sep + Join(parts[1..], sep), 0, |parts[0]|);
      }
    } else {
      var head := parts[0] + sep;
      var tail := Join(parts[1..], sep);
      assert Join(parts, sep) == head + tail + [];
      JoinPlacesPart(parts[1..], sep, i - 1);
      var o := Offset(parts[1..], sep, i - 1);
      assert parts[1..][i - 1] == parts[i];
      SliceOfConcat(head, tail, [], o, o + |parts[i]|);
    }
  }

  /** Each part after the first is immediately preceded by the separator. */
  lemma {:induction false} JoinSeparatesParts(parts: seq<string>, sep: string, i: nat)
    requires 0 < i < |parts|
    ensures |sep| <= Offset(parts, sep, i) <= |Join(parts, sep)|
    ensures Join(parts, sep)[Offset(parts, sep, i) - |sep|..Offset(parts, sep, i)] == sep
    decreases i
  {
    var tail := Join(parts[1..], sep);
    if i == 1 {
      SliceOfConcat(parts[0], sep, tail, 0, |sep|);
    } else {
      var head := parts[0] + sep;
      assert Join(parts, sep) == head + tail + [];
      JoinSeparatesParts(parts[1..], sep, i - 1);
      var o := Offset(parts[1..], sep, i - 1);
      SliceOfConcat(head, tail, [], o - |sep|, o);
    }
  }

  /** A slice of `a + b + c` that lies inside `b`. */
  lemma SliceOfConcat(a: string, b: string, c: string, x: nat, y: nat)
    requires x <= y <= |b|
    ensures (a + b + c)[|a| + x..|a| + y] == b[x..y]
  {
    var s := a + b + c;
    assert forall k :: |a| <= k < |a| + |b| ==> s[k] == b[k - |a|];
  }

  // ---------------------------------------------------------------------------
  // Splitting: the reading side of the encoding

  /** The separator occurs in `s` at position `j`. */
  predicate SepAt(s: string, j: int)
  {
    0 <= j && j + 1 < |s| && s[j] == ',' && s[j + 1] == ' '
  }

  /** The name does not contain the separator. */
  predicate NoSep(s: string)
  {
    forall j :: 0 <= j < |s| ==> !SepAt(s, j)
  }

  /** The position of the first separator in `s` at or after `from`, or -1 if there is none. */
  function FirstSepFrom(s: string, from: nat): (r: int)
    requires from <= |s|
    ensures r == -1 <==> forall j :: from <= j < |s| ==> !SepAt(s, j)
    ensures r != -1 ==> from <= r && SepAt(s, r) && forall j :: from <= j < r ==> !SepAt(s, j)
    decreases |s| - from
  {
    if from + 1 >= |s| then -1
    else if SepAt(s, from) then from
    else FirstSepFrom(s, from + 1)
  }

  /** The position of the first separator in `s`, or -1 if there is none. */
  function FirstSep(s: string): (r: int)
  {
    FirstSepFrom(s, 0)
  }

  /** JavaScript's `String.prototype.split(", ")`. */
  function Split(s: string): (r: seq<string>)
    ensures r != []
    decreases |s|
  {
    var k := FirstSep(s);
    if k == -1 then [s] else [s[..k]] + Split(s[k + 2..])
  }

  /** A name free of the separator, followed by the separator: the first separator is the appended one. */
  lemma {:induction false} FirstSepAfterName(name: string, rest: string)
    requires NoSep(name)
    ensures FirstSep(name + Separator + rest) == |name|
  {
    var s := name + Separator + rest;
    assert SepAt(s, |name|);
    forall j | 0 <= j < |name|
      ensures !SepAt(s, j)
    {
      if j + 1 < |name| {
        assert !SepAt(name, j);
      } else {
        assert s[j + 1] == ',';
      }
    }
  }

  /**
   * The round trip of the encoding: splitting the joined string gives back
   * the names, in order, provided there is at least one name and no name
   * contains the separator. (An empty list and the list `[""]` both join to
   * `""`, so the first condition cannot be dropped.)
   */
  lemma {:induction false} SplitJoin(parts: seq<string>)
    requires parts != []
    requires forall i :: 0 <= i < |parts| ==> NoSep(parts[i])
    ensures Split(Join(parts, Separator)) == parts
    decreases |parts|
  {
    if |parts| == 1 {
      assert FirstSep(parts[0]) == -1;
    } else {
      var tail := Join(parts[1..], Separator);
      var s := parts[0] + Separator + tail;
      assert Join(parts, Separator) == s;
      FirstSepAfterName(parts[0], tail);
      assert s[..|parts[0]|] == parts[0];
      assert s[|parts[0]| + 2..] == tail;
      SplitJoin(parts[1..]);
      assert parts == [parts[0]] + parts[1..];
    }
  }

  /** An empty list and the list holding one empty name encode to the same string. */
  lemma EmptyEncodingAmbiguous()
    ensures Join([], Separator) == Join([""], Separator) == ""
  {
  }
}
