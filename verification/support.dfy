/** The optional-value type used by the model. */
module Wrappers {
  datatype Option<+T> = None | Some(value: T)
}

/**
 * Character and string helpers shared by the models, the filters and the
 * mutations: ASCII digits, ASCII case folding, substring and prefix tests,
 * decimal rendering of identifiers and Python's `str.join`.
 */
module Text {

  predicate IsDigit(c: char) {
    '0' <= c <= '9'
  }

  predicate AllDigits(s: string) {
    forall i :: 0 <= i < |s| ==> IsDigit(s[i])
  }

  /** ASCII lower-casing: the case folding of SQLite's LIKE operator, the store's backend. */
  function Lower(c: char): (r: char)
    ensures 'A' <= c <= 'Z' ==> 'a' <= r <= 'z' && r as int == c as int + 32
    ensures !('A' <= c <= 'Z') ==> r == c
  {
    if 'A' <= c <= 'Z' then (c as int + 32) as char else c
  }

  function LowerString(s: string): (r: string)
    ensures |r| == |s|
    ensures forall i :: 0 <= i < |s| ==> r[i] == Lower(s[i])
  {
    seq(|s|, i requires 0 <= i < |s| => Lower(s[i]))
  }

  predicate IsPrefix(p: string, s: string) {
    |p| <= |s| && s[..|p|] == p
  }

  /** `needle` occurs in `hay` at some offset: the meaning of SQL `LIKE '%needle%'`. */
  ghost predicate OccursIn(needle: string, hay: string) {
    exists i :: OccursAt(needle, hay, i)
  }

  predicate OccursAt(needle: string, hay: string, i: int) {
    0 <= i <= |hay| - |needle| && hay[i..i + |needle|] == needle
  }

  /** Executable substring search, proved to decide OccursIn. */
  function Contains(hay: string, needle: string): (r: bool)
    ensures r <==> OccursIn(needle, hay)
    decreases |hay|
  {
    if IsPrefix(needle, hay) then
      assert OccursAt(needle, hay, 0);
      true
    else if |hay| <= |needle| then
      assert !OccursIn(needle, hay) by {
        forall i ensures !OccursAt(needle, hay, i) {
          if |hay| == |needle| {
            assert hay[..|needle|] == hay[0..0 + |needle|];
          }
        }
      }
      false
    else
      var rest := Contains(hay[1..], needle);
      assert rest ==> OccursIn(needle, hay) by {
        if rest {
          var i :| OccursAt(needle, hay[1..], i);
          assert hay[i + 1..i + 1 + |needle|] == hay[1..][i..i + |needle|];
          assert OccursAt(needle, hay, i + 1);
        }
      }
      assert OccursIn(needle, hay) ==> rest by {
        if OccursIn(needle, hay) {
          var i :| OccursAt(needle, hay, i);
          assert i != 0;
          assert hay[1..][i - 1..i - 1 + |needle|] == hay[i..i + |needle|];
          assert OccursAt(needle, hay[1..], i - 1);
        }
      }
      rest
  }

  /** Django's `icontains` lookup, with ASCII case folding. */
  predicate ContainsIgnoringCase(hay: string, needle: string) {
    Contains(LowerString(hay), LowerString(needle))
  }

  function DigitChar(d: nat): (c: char)
    requires d < 10
    ensures IsDigit(c) && c as int - '0' as int == d
  {
    ('0' as int + d) as char
  }

  /** The value of a string of decimal digits. */
  function DigitsValue(s: string): nat
    requires AllDigits(s)
  {
    if s == [] then 0 else DigitsValue(s[..|s| - 1]) * 10 + (s[|s| - 1] as int - '0' as int)
  }

  /** Python's `str(n)` for a non-negative integer. */
  function NatToString(n: nat): (s: string)
    ensures |s| > 0 && AllDigits(s)
    ensures DigitsValue(s) == n
    ensures |s| == 1 || s[0] != '0'
  {
    if n < 10 then [DigitChar(n)]
    else
      var head := NatToString(n / 10);
      var s := head + [DigitChar(n % 10)];
      assert s[..|s| - 1] == head;
      assert |head| == 1 ==> head[0] != '0' by {
        if |head| == 1 {
          assert head[..0] == [];
        }
      }
      s
  }

  /** Python's `sep.join(parts)`. */
  function Join(parts: seq<string>, sep: string): (r: string)
    ensures parts == [] ==> r == ""
    ensures parts != [] ==> |r| == TotalLength(parts) + (|parts| - 1) * |sep|
  {
    if |parts| == 0 then ""
    else if |parts| == 1 then parts[0]
    else parts[0] + sep + Join(parts[1..], sep)
  }

  function TotalLength(parts: seq<string>): nat {
    if parts == [] then 0 else |parts[0]| + TotalLength(parts[1..])
  }

  /** Where part `k` begins when every earlier part is followed by a separator. */
  function Offset(parts: seq<string>, sep: string, k: nat): nat
    requires k <= |parts|
  {
    if k == 0 then 0 else |parts[0]| + |sep| + Offset(parts[1..], sep, k - 1)
  }

  /** A joined string ends with its last part: its length is that part's offset plus its length. */
  lemma {:induction false} JoinLength(parts: seq<string>, sep: string)
    requires parts != []
    ensures |Join(parts, sep)| == Offset(parts, sep, |parts| - 1) + |parts[|parts| - 1]|
  {
    if |parts| > 1 {
      JoinLength(parts[1..], sep);
    }
  }

  /** Part `k` of a joined string sits at its offset. */
  lemma {:induction false} JoinPartAt(parts: seq<string>, sep: string, k: nat)
    requires k < |parts|
    ensures Offset(parts, sep, k) + |parts[k]| <= |Join(parts, sep)|
    ensures Join(parts, sep)[Offset(parts, sep, k)..Offset(parts, sep, k) + |parts[k]|] == parts[k]
  {
    var r := Join(parts, sep);
    if |parts| > 1 {
      var tail := Join(parts[1..], sep);
      var off := |parts[0]| + |sep|;
      assert r == (parts[0] + sep) + tail;
      if k == 0 {
        assert r[0..|parts[0]|] == parts[0];
      } else {
        assert r[off..] == tail;
        JoinPartAt(parts[1..], sep, k - 1);
        assert parts[1..][k - 1] == parts[k];
        SliceOfSuffix(r, off, tail, Offset(parts[1..], sep, k - 1), Offset(parts[1..], sep, k - 1) + |parts[k]|);
      }
    }
  }

  /** Each part's offset is the previous one's plus that part and one separator. */
  lemma {:induction false} OffsetNext(parts: seq<string>, sep: string, k: nat)
    requires k + 1 <= |parts|
    ensures Offset(parts, sep, k + 1) == Offset(parts, sep, k) + |parts[k]| + |sep|
  {
    if k > 0 {
      OffsetNext(parts[1..], sep, k - 1);
      assert parts[1..][k - 1] == parts[k];
    }
  }

  /** Between part `k` and part `k + 1` of a joined string there is exactly one separator. */
  lemma {:induction false} JoinSeparatorAt(parts: seq<string>, sep: string, k: nat)
    requires k + 1 < |parts|
    ensures Offset(parts, sep, k + 1) == Offset(parts, sep, k) + |parts[k]| + |sep|
    ensures Offset(parts, sep, k + 1) <= |Join(parts, sep)|
    ensures Join(parts, sep)[Offset(parts, sep, k) + |parts[k]|..Offset(parts, sep, k + 1)] == sep
  {
    OffsetNext(parts, sep, k);
    JoinPartAt(parts, sep, k + 1);
    var r := Join(parts, sep);
    var tail := Join(parts[1..], sep);
    var off := |parts[0]| + |sep|;
    assert r == (parts[0] + sep) + tail;
    if k == 0 {
      assert r[|parts[0]|..off] == sep;
    } else {
      assert r[off..] == tail;
      JoinSeparatorAt(parts[1..], sep, k - 1);
      assert parts[1..][k - 1] == parts[k];
      SliceOfSuffix(r, off, tail, Offset(parts[1..], sep, k - 1) + |parts[k]|, Offset(parts[1..], sep, k));
    }
  }

  /** A slice of a suffix is a slice of the whole string, shifted by the suffix's start. */
  lemma SliceOfSuffix(r: string, h: nat, j: string, a: nat, b: nat)
    requires h <= |r| && r[h..] == j && a <= b <= |j|
    ensures h + b <= |r| && r[h + a..h + b] == j[a..b]
  {
    assert |r| == h + |j|;
    forall i | 0 <= i < b - a ensures r[h + a..h + b][i] == j[a..b][i] {
      assert r[h + a + i] == r[h..][a + i];
    }
  }

  /** In a joined string that follows a heading of `h` characters, part `k` sits at its offset. */
  lemma JoinedSuffixPart(r: string, h: nat, parts: seq<string>, sep: string, k: nat)
    requires h <= |r| && r[h..] == Join(parts, sep) && k < |parts|
    ensures h + Offset(parts, sep, k) + |parts[k]| <= |r|
    ensures r[h + Offset(parts, sep, k)..h + Offset(parts, sep, k) + |parts[k]|] == parts[k]
  {
    JoinPartAt(parts, sep, k);
    SliceOfSuffix(r, h, Join(parts, sep), Offset(parts, sep, k), Offset(parts, sep, k) + |parts[k]|);
  }

  /** ... and is followed by the separator, unless it is the last part. */
  lemma JoinedSuffixSeparator(r: string, h: nat, parts: seq<string>, sep: string, k: nat)
    requires h <= |r| && r[h..] == Join(parts, sep) && k + 1 < |parts|
    ensures h + Offset(parts, sep, k) + |parts[k]| + |sep| <= |r|
    ensures r[h + Offset(parts, sep, k) + |parts[k]|..h + Offset(parts, sep, k) + |parts[k]| + |sep|] == sep
  {
    JoinSeparatorAt(parts, sep, k);
    SliceOfSuffix(r, h, Join(parts, sep), Offset(parts, sep, k) + |parts[k]|, Offset(parts, sep, k + 1));
  }

  /** ... and the last part ends the string. */
  lemma JoinedSuffixEnd(r: string, h: nat, parts: seq<string>, sep: string)
    requires h <= |r| && r[h..] == Join(parts, sep) && parts != []
    ensures h + Offset(parts, sep, |parts| - 1) + |parts[|parts| - 1]| == |r|
  {
    JoinLength(parts, sep);
  }

}

/**
 * Selection over an ordered table, the model of a Django queryset `filter`:
 * the rows kept are exactly those satisfying the condition, in table order.
 */
module Sequences {

  /** `r` is obtained from `s` by deleting elements. */
  ghost predicate IsSubsequence<T>(r: seq<T>, s: seq<T>)
    ensures IsSubsequence(r, s) ==> |r| <= |s|
  {
    if r == [] then true
    else if s == [] then false
    else (r[0] == s[0] && IsSubsequence(r[1..], s[1..])) || IsSubsequence(r, s[1..])
  }

  function Where<T(!new)>(s: seq<T>, keep: T -> bool): (r: seq<T>)
    ensures IsSubsequence(r, s)
    ensures forall x :: x in r <==> x in s && keep(x)
  {
    if s == [] then []
    else if keep(s[0]) then
      var r := [s[0]] + Where(s[1..], keep);
      assert r[1..] == Where(s[1..], keep);
      r
    else Where(s[1..], keep)
  }

  lemma {:induction false} SubsequenceReflexive<T>(s: seq<T>)
    ensures IsSubsequence(s, s)
  {
    if s != [] {
      SubsequenceReflexive(s[1..]);
    }
  }

  lemma {:induction false} SubsequenceTransitive<T>(a: seq<T>, b: seq<T>, c: seq<T>)
    requires IsSubsequence(a, b) && IsSubsequence(b, c)
    ensures IsSubsequence(a, c)
    decreases |c|
  {
    if a != [] && b != [] && c != [] {
      if IsSubsequence(b, c[1..]) {
        SubsequenceTransitive(a, b, c[1..]);
      } else if a[0] == b[0] && IsSubsequence(a[1..], b[1..]) {
        SubsequenceTransitive(a[1..], b[1..], c[1..]);
      } else {
        SubsequenceTransitive(a, b[1..], c[1..]);
      }
    }
  }

  lemma {:induction false} WhereAppend<T(!new)>(s: seq<T>, x: T, keep: T -> bool)
    ensures Where(s + [x], keep) == Where(s, keep) + (if keep(x) then [x] else [])
  {
    if s != [] {
      assert (s + [x])[1..] == s[1..] + [x];
      WhereAppend(s[1..], x, keep);
    }
  }

  lemma {:induction false} WhereNone<T(!new)>(s: seq<T>, keep: T -> bool)
    requires forall x :: x in s ==> !keep(x)
    ensures Where(s, keep) == []
  {
    if s != [] {
      WhereNone(s[1..], keep);
    }
  }

  /** Keys strictly increasing along the sequence (primary keys in table order). */
  ghost predicate StrictlyIncreasing<T>(s: seq<T>, key: T -> int) {
    forall i, j :: 0 <= i < j < |s| ==> key(s[i]) < key(s[j])
  }

  lemma {:induction false} WhereKeepsIncreasing<T(!new)>(s: seq<T>, keep: T -> bool, key: T -> int)
    requires StrictlyIncreasing(s, key)
    ensures StrictlyIncreasing(Where(s, keep), key)
  {
    if s != [] {
      WhereKeepsIncreasing(s[1..], keep, key);
      var tail := Where(s[1..], keep);
      if keep(s[0]) {
        var r := Where(s, keep);
        assert r == [s[0]] + tail;
        forall i, j | 0 <= i < j < |r| ensures key(r[i]) < key(r[j]) {
          if i == 0 {
            assert r[j] in s[1..];
          }
        }
      }
    }
  }
}
