/**
  The two `strings` calls the handler makes (`strings.Split` on a
  one-character separator and `strings.ReplaceAll(s, c, "")`), the `+=`
  accumulation (concatenation without a separator), and `strings.Join` as
  the inverse of `Split`. Go strings are byte strings; the separators used here (',', '*')
  are ASCII, so splitting and removing them byte by byte or character by
  character gives the same result.
 */
module GoStrings {

  /** The index of the first occurrence of `c` in `s`. */
  function IndexOf(s: string, c: char): (i: nat)
    requires c in s
    ensures i < |s| && s[i] == c && c !in s[..i]
  {
    if s[0] == c then 0
    else
      var j := IndexOf(s[1..], c);
      assert s[..j + 1] == [s[0]] + s[1..][..j];
      j + 1
  }

  /** `strings.Join(parts, string(sep))`: the parts with `sep` between neighbours. */
  function JoinWith(parts: seq<string>, sep: char): string
  {
    if |parts| == 0 then ""
    else if |parts| == 1 then parts[0]
    else parts[0] + [sep] + JoinWith(parts[1..], sep)
  }

  /** `strings.Join(parts, "")`, built as `+=` builds it: the parts in order, nothing between them. */
  function Concat(parts: seq<string>): string
  {
    if parts == [] then "" else Concat(parts[..|parts| - 1]) + parts[|parts| - 1]
  }

  /**
    `strings.Split(s, string(sep))`: the maximal pieces of `s` between
    occurrences of `sep`. There is at least one piece and no piece holds
    `sep`; the empty string splits into one empty piece.
   */
  function Split(s: string, sep: char): (parts: seq<string>)
    ensures |parts| >= 1
    ensures forall i :: 0 <= i < |parts| ==> sep !in parts[i]
    decreases |s|
  {
    if sep !in s then [s] else var i := IndexOf(s, sep); [s[..i]] + Split(s[i + 1..], sep)
  }

  /** Joining the pieces with `sep` gives `s` back. */
  lemma {:induction false} JoinWithSplit(s: string, sep: char)
    ensures JoinWith(Split(s, sep), sep) == s
    decreases |s|
  {
    if sep in s {
      var i := IndexOf(s, sep);
      assert s == s[..i] + [sep] + s[i + 1..];
      JoinWithSplit(s[i + 1..], sep);
    }
  }

  /** There is one piece more than there are separators. */
  lemma {:induction false} SplitCount(s: string, sep: char)
    ensures |Split(s, sep)| == multiset(s)[sep] + 1
    decreases |s|
  {
    if sep in s {
      var i := IndexOf(s, sep);
      assert s == s[..i] + [sep] + s[i + 1..];
      assert multiset(s) == multiset(s[..i]) + multiset([sep]) + multiset(s[i + 1..]);
      SplitCount(s[i + 1..], sep);
    }
  }

  /** Split undoes JoinWith on pieces that hold no separator: the two are inverses. */
  lemma {:induction false} SplitJoinWith(parts: seq<string>, sep: char)
    requires |parts| >= 1
    requires forall i :: 0 <= i < |parts| ==> sep !in parts[i]
    ensures Split(JoinWith(parts, sep), sep) == parts
  {
    if |parts| > 1 {
      var s := JoinWith(parts, sep);
      var p0 := parts[0];
      var rest := JoinWith(parts[1..], sep);
      assert s == p0 + [sep] + rest;
      assert s[..|p0|] == p0;
      assert s[|p0|] == sep;
      assert s[|p0| + 1..] == rest;
      assert IndexOf(s, sep) == |p0|;
      SplitJoinWith(parts[1..], sep);
      assert Split(s, sep) == [p0] + Split(rest, sep);
    }
  }

  /** `strings.ReplaceAll(s, string(c), "")`: `s` with every `c` deleted and the rest kept. */
  function RemoveAll(s: string, c: char): (r: string)
    ensures c !in r
    ensures c !in s ==> r == s
  {
    if s == [] then [] else (if s[0] == c then [] else [s[0]]) + RemoveAll(s[1..], c)
  }

  /** Every character other than `c` keeps its number of occurrences. */
  lemma {:induction false} RemoveAllCounts(s: string, c: char)
    ensures multiset(RemoveAll(s, c)) == multiset(s)[c := 0]
  {
    if s != [] {
      assert s == [s[0]] + s[1..];
      RemoveAllCounts(s[1..], c);
    }
  }

  /** Deleting a character is done piece by piece: it keeps the order of what remains. */
  lemma {:induction false} RemoveAllAppend(a: string, b: string, c: char)
    ensures RemoveAll(a + b, c) == RemoveAll(a, c) + RemoveAll(b, c)
  {
    if a != [] {
      var head := if a[0] == c then [] else [a[0]];
      assert RemoveAll(a, c) == head + RemoveAll(a[1..], c);
      assert (a + b)[0] == a[0] && (a + b)[1..] == a[1..] + b;
      assert RemoveAll(a + b, c) == head + RemoveAll(a[1..] + b, c);
      RemoveAllAppend(a[1..], b, c);
    } else {
      assert a + b == b;
    }
  }

  /** Concat seen from the front. */
  lemma {:induction false} ConcatCons(p: string, parts: seq<string>)
    ensures Concat([p] + parts) == p + Concat(parts)
    decreases |parts|
  {
    if parts != [] {
      var last := parts[|parts| - 1];
      assert ([p] + parts)[..|parts|] == [p] + parts[..|parts| - 1];
      ConcatCons(p, parts[..|parts| - 1]);
    }
  }

  /** One step of RemoveSeparators: the first piece and its separator. */
  lemma RemoveFirstSeparator(p0: string, tail: seq<string>, sep: char)
    requires |tail| >= 1 && sep !in p0
    ensures RemoveAll(JoinWith([p0] + tail, sep), sep) == p0 + RemoveAll(JoinWith(tail, sep), sep)
  {
    var rest := JoinWith(tail, sep);
    var joined := JoinWith([p0] + tail, sep);
    assert joined == (p0 + [sep]) + rest by {
      assert ([p0] + tail)[1..] == tail;
    }
    var head := RemoveAll(p0 + [sep], sep);
    assert head == p0 by {
      RemoveAllAppend(p0, [sep], sep);
      assert RemoveAll([sep], sep) == [];
    }
    RemoveAllAppend(p0 + [sep], rest, sep);
  }

  /** Deleting the separators from a joined string leaves the plain concatenation of the pieces. */
  lemma {:induction false} RemoveSeparators(parts: seq<string>, sep: char)
    requires |parts| >= 1
    requires forall i :: 0 <= i < |parts| ==> sep !in parts[i]
    ensures RemoveAll(JoinWith(parts, sep), sep) == Concat(parts)
  {
    if |parts| == 1 {
      assert Concat(parts) == Concat([]) + parts[0];
      assert JoinWith(parts, sep) == parts[0];
    } else {
      var p0, tail := parts[0], parts[1..];
      assert [p0] + tail == parts;
      RemoveFirstSeparator(p0, tail, sep);
      RemoveSeparators(tail, sep);
      ConcatCons(p0, tail);
    }
  }
}
