/** The few PHP value semantics the toolkit relies on: `empty()`, string
    conversion by `.`, `implode`, `explode` and `array_merge` with string keys. */
module Php {

  datatype Option<+T> = None | Some(value: T) {
    function GetOr(default: T): T {
      match this
      case Some(v) => v
      case None => default
    }
  }

  /** A PHP value as far as the toolkit inspects it. Floats and objects are not
      modelled; an array is represented only by its number of elements. */
  datatype Value = Null | Bool(b: bool) | Int(i: int) | Str(s: string) | Arr(size: nat)

  /** `empty($s)` on a string: the empty string and `'0'`. */
  predicate EmptyString(s: string) {
    s == "" || s == "0"
  }

  /** PHP `empty($v)`: null, false, 0, '', '0' and the empty array. */
  predicate IsEmpty(v: Value) {
    match v
    case Null => true
    case Bool(b) => !b
    case Int(i) => i == 0
    case Str(s) => EmptyString(s)
    case Arr(n) => n == 0
  }

  function Digit(d: nat): (c: char)
    requires d < 10
  {
    ('0' as int + d) as char
  }

  /** Decimal notation of a natural number, as PHP prints an integer. */
  function NatToDecimal(n: nat): (r: string)
    ensures |r| >= 1 && Digits(r)
    ensures n > 0 ==> r[0] != '0'
    ensures DecimalValue(r) == n
    decreases n
  {
    if n < 10 then
      assert [Digit(n)][..0] == [];
      [Digit(n)]
    else
      var r := NatToDecimal(n / 10) + [Digit(n % 10)];
      assert r[..|r| - 1] == NatToDecimal(n / 10);
      r
  }

  /** PHP's string form of an integer: a minus sign for negatives, then the
      decimal digits of the magnitude. */
  function IntToDecimal(i: int): (r: string)
    ensures i >= 0 ==> r == NatToDecimal(i) && DecimalValue(r) == i
    ensures i < 0 ==> |r| >= 2 && r[0] == '-' && r[1] != '0' && DecimalValue(r[1..]) == -i
    ensures forall k :: 0 < k < |r| ==> '0' <= r[k] <= '9'
  {
    if i < 0 then
      var d := NatToDecimal(-i);
      assert ("-" + d)[1..] == d;
      "-" + d
    else NatToDecimal(i)
  }

  /** The number a string of decimal digits denotes, read left to right. */
  function DecimalValue(s: string): int
    decreases |s|
  {
    if |s| == 0 then 0
    else 10 * DecimalValue(s[..|s| - 1]) + (s[|s| - 1] as int - '0' as int)
  }

  predicate Digits(s: string) {
    forall k :: 0 <= k < |s| ==> '0' <= s[k] <= '9'
  }

  /** A digit string denotes a non-negative number, a positive one when it
      starts with a non-zero digit. */
  lemma {:induction false} DecimalBounds(s: string)
    requires Digits(s)
    ensures DecimalValue(s) >= 0
    ensures |s| >= 1 && s[0] != '0' ==> DecimalValue(s) >= 1
    decreases |s|
  {
    if |s| > 0 {
      var t := s[..|s| - 1];
      assert Digits(t) by {
        forall k | 0 <= k < |t| ensures '0' <= t[k] <= '9' { assert t[k] == s[k]; }
      }
      DecimalBounds(t);
      if |t| >= 1 {
        assert t[0] == s[0];
      }
    }
  }

  /** Every digit string without a leading zero is what PHP prints for the
      number it denotes: the decimal form is unique. */
  lemma {:induction false} DecimalCanonical(s: string)
    requires |s| >= 1 && Digits(s) && (|s| > 1 ==> s[0] != '0')
    ensures DecimalValue(s) >= 0 && NatToDecimal(DecimalValue(s)) == s
    decreases |s|
  {
    DecimalBounds(s);
    var t := s[..|s| - 1];
    var d := s[|s| - 1] as int - '0' as int;
    if |s| == 1 {
      assert t == [] && DecimalValue(s) == d;
      assert [Digit(d)] == s;
    } else {
      assert Digits(t) by {
        forall k | 0 <= k < |t| ensures '0' <= t[k] <= '9' { assert t[k] == s[k]; }
      }
      assert t[0] == s[0];
      DecimalBounds(t);
      DecimalCanonical(t);
      var m := DecimalValue(t);
      var n := DecimalValue(s);
      assert n == 10 * m + d && 0 <= d < 10;
      assert n / 10 == m && n % 10 == d;
      assert s == t + [Digit(d)];
    }
  }

  /** String conversion of a value, as `'a' . $v` performs it. */
  function ToStr(v: Value): string {
    match v
    case Null => ""
    case Bool(b) => if b then "1" else ""
    case Int(i) => IntToDecimal(i)
    case Str(s) => s
    case Arr(_) => "Array"
  }

  predicate EndsWith(s: string, suffix: string) {
    |suffix| <= |s| && s[|s| - |suffix|..] == suffix
  }

  // ---------------------------------------------------------------------------
  // Bitwise or on non-negative integers

  /** Bit `k` of `x`. */
  predicate Bit(x: nat, k: nat)
    decreases k
  {
    if k == 0 then x % 2 == 1 else Bit(x / 2, k - 1)
  }

  /** PHP's `$a | $b` for non-negative integers, one binary digit at a time. */
  function BitOr(a: nat, b: nat): nat
    decreases a + b
  {
    if a == 0 && b == 0 then 0
    else 2 * BitOr(a / 2, b / 2) + (if a % 2 == 1 || b % 2 == 1 then 1 else 0)
  }

  /** The lowest bit of `a | b` is the or of the lowest bits, and the rest is
      the or of the rest. */
  lemma BitOrHalves(a: nat, b: nat)
    ensures BitOr(a, b) % 2 == (if a % 2 == 1 || b % 2 == 1 then 1 else 0)
    ensures BitOr(a, b) / 2 == BitOr(a / 2, b / 2)
  {
    if !(a == 0 && b == 0) {
      var q := BitOr(a / 2, b / 2);
      var r := if a % 2 == 1 || b % 2 == 1 then 1 else 0;
      assert BitOr(a, b) == 2 * q + r;
    }
  }

  /** A bit is set in `a | b` exactly when it is set in `a` or in `b`. */
  lemma {:induction false} BitOrBits(a: nat, b: nat, k: nat)
    ensures Bit(BitOr(a, b), k) <==> Bit(a, k) || Bit(b, k)
    decreases k
  {
    BitOrHalves(a, b);
    if k > 0 {
      BitOrBits(a / 2, b / 2, k - 1);
    }
  }

  /** Or'ing in nothing changes nothing. */
  lemma {:induction false} BitOrZero(a: nat)
    ensures BitOr(a, 0) == a
    decreases a
  {
    if a > 0 {
      BitOrZero(a / 2);
    }
  }

  // ---------------------------------------------------------------------------
  // Concatenation

  // The four lemmas below have no counterpart in the toolkit: they are small
  // steps about concatenation that the proofs of the tag helpers cite.

  lemma Assoc(a: string, b: string, c: string)
    ensures a + b + c == a + (b + c)
  {
  }

  lemma DropHead(c: string, x: string)
    requires |c| == 1
    ensures (c + x)[1..] == x
  {
  }

  lemma PrefixOfAppend(a: string, b: string)
    ensures a <= a + b
  {
    assert (a + b)[..|a|] == a;
  }

  lemma EndsWithAppend(a: string, b: string)
    ensures EndsWith(a + b, b)
  {
    assert (a + b)[|a + b| - |b|..] == b;
  }

  // ---------------------------------------------------------------------------
  // implode and explode

  /** `implode($sep, $parts)`. */
  function Join(sep: string, parts: seq<string>): string
    decreases |parts|
  {
    if |parts| == 0 then ""
    else if |parts| == 1 then parts[0]
    else parts[0] + sep + Join(sep, parts[1..])
  }

  /** Imploding pieces that are each at least `n` long gives a string that is
      empty or at least `n` long. */
  lemma {:induction false} JoinLength(sep: string, parts: seq<string>, n: nat)
    requires n >= 1
    requires forall k :: 0 <= k < |parts| ==> |parts[k]| >= n
    ensures parts == [] <==> Join(sep, parts) == []
    ensures parts != [] ==> |Join(sep, parts)| >= n
    decreases |parts|
  {
    if |parts| >= 2 {
      JoinLength(sep, parts[1..], n);
      assert |Join(sep, parts)| >= |parts[0]|;
    } else if |parts| == 1 {
      assert parts[0] in parts;
    }
  }

  /** Characters that occur in none of the pieces nor in the separator do not
      occur in the imploded string. */
  lemma {:induction false} JoinExcludes(sep: string, parts: seq<string>, c: char)
    requires c !in sep
    requires forall k :: 0 <= k < |parts| ==> c !in parts[k]
    ensures c !in Join(sep, parts)
    decreases |parts|
  {
    if |parts| >= 2 {
      JoinExcludes(sep, parts[1..], c);
    }
  }

  /** `explode($sep, $s)` for a one-character separator: the maximal pieces
      between separators, always at least one. */
  function Explode(sep: char, s: string): (parts: seq<string>)
    ensures |parts| >= 1
    ensures forall k :: 0 <= k < |parts| ==> sep !in parts[k]
    decreases |s|
  {
    if |s| == 0 then [""]
    else
      var rest := Explode(sep, s[1..]);
      if s[0] == sep then [""] + rest else [[s[0]] + rest[0]] + rest[1..]
  }

  /** implode undoes explode. */
  lemma {:induction false} JoinExplode(sep: char, s: string)
    ensures Join([sep], Explode(sep, s)) == s
    decreases |s|
  {
    if |s| > 0 {
      var rest := Explode(sep, s[1..]);
      JoinExplode(sep, s[1..]);
      if s[0] == sep {
        assert ([""] + rest)[1..] == rest;
      } else if |rest| == 1 {
        assert [[s[0]] + rest[0]] + rest[1..] == [[s[0]] + rest[0]];
      } else {
        var parts := [[s[0]] + rest[0]] + rest[1..];
        assert parts[1..] == rest[1..];
        assert Join([sep], rest) == rest[0] + [sep] + Join([sep], rest[1..]);
        assert s == [s[0]] + s[1..];
      }
    }
  }

  /** A string without the separator explodes into itself alone. */
  lemma {:induction false} ExplodeWithoutSeparator(sep: char, s: string)
    requires sep !in s
    ensures Explode(sep, s) == [s]
    decreases |s|
  {
    if |s| > 0 {
      assert sep !in s[1..] by {
        forall k | 0 <= k < |s[1..]| ensures s[1..][k] != sep { assert s[1..][k] == s[k + 1]; }
      }
      ExplodeWithoutSeparator(sep, s[1..]);
      assert [s[0]] + s[1..] == s;
    }
  }

  /** Exploding `a + sep + b`, where `a` has no separator, yields `a` followed by
      the pieces of `b`. */
  lemma {:induction false} ExplodeAtSeparator(sep: char, a: string, b: string)
    requires sep !in a
    ensures Explode(sep, a + [sep] + b) == [a] + Explode(sep, b)
    decreases |a|
  {
    var s := a + [sep] + b;
    if |a| == 0 {
      assert s[0] == sep && s[1..] == b;
    } else {
      assert s[0] == a[0] && s[1..] == a[1..] + [sep] + b;
      assert sep !in a[1..] by {
        forall k | 0 <= k < |a[1..]| ensures a[1..][k] != sep { assert a[1..][k] == a[k + 1]; }
      }
      ExplodeAtSeparator(sep, a[1..], b);
      assert [a[0]] + a[1..] == a;
    }
  }

  /** The first piece of an explode is a prefix of the string and the last
      piece a suffix. */
  lemma ExplodeEnds(sep: char, s: string)
    ensures Explode(sep, s)[0] <= s
    ensures EndsWith(s, Explode(sep, s)[|Explode(sep, s)| - 1])
  {
    ExplodeFirst(sep, s);
    ExplodeLast(sep, s);
  }

  /** The first piece is the whole string when there is no separator;
      otherwise it is followed by a separator, and the rest explodes into the
      remaining pieces. */
  lemma {:induction false} ExplodeHead(sep: char, s: string)
    ensures var parts := Explode(sep, s);
      (|parts| == 1 ==> parts[0] == s)
      && (|parts| > 1 ==> parts[0] + [sep] <= s && Explode(sep, s[|parts[0]| + 1..]) == parts[1..])
    decreases |s|
  {
    if |s| > 0 {
      var parts := Explode(sep, s);
      var rest := Explode(sep, s[1..]);
      if s[0] == sep {
        assert parts == [""] + rest && parts[1..] == rest;
        assert [sep] <= s;
      } else {
        ExplodeHead(sep, s[1..]);
        assert parts == [[s[0]] + rest[0]] + rest[1..] && parts[1..] == rest[1..];
        assert s == [s[0]] + s[1..];
        if |rest| > 1 {
          var h := rest[0];
          assert h + [sep] == s[1..][..|h| + 1];
          assert parts[0] + [sep] == s[..|h| + 2];
          assert s[|parts[0]| + 1..] == s[1..][|h| + 1..];
        }
      }
    }
  }

  lemma {:induction false} ExplodeFirst(sep: char, s: string)
    ensures Explode(sep, s)[0] <= s
    decreases |s|
  {
    if |s| > 0 && s[0] != sep {
      var rest := Explode(sep, s[1..]);
      ExplodeFirst(sep, s[1..]);
      assert [s[0]] + rest[0] <= [s[0]] + s[1..];
      assert [s[0]] + s[1..] == s;
    }
  }

  lemma {:induction false} ExplodeLast(sep: char, s: string)
    ensures EndsWith(s, Explode(sep, s)[|Explode(sep, s)| - 1])
    decreases |s|
  {
    if |s| > 0 {
      var rest := Explode(sep, s[1..]);
      var parts := Explode(sep, s);
      if s[0] != sep && |rest| == 1 {
        JoinExplode(sep, s[1..]);
        assert parts == [[s[0]] + s[1..]];
        assert [s[0]] + s[1..] == s;
      } else {
        ExplodeLast(sep, s[1..]);
        var last := rest[|rest| - 1];
        assert parts[|parts| - 1] == last;
        assert s[1..][|s[1..]| - |last|..] == last;
        assert s[|s| - |last|..] == last;
      }
    }
  }

  // ---------------------------------------------------------------------------
  // Arrays with string keys, in insertion order

  /** The value stored under `k` (the first entry with that key). */
  function Lookup<V>(a: seq<(string, V)>, k: string): Option<V>
    decreases |a|
  {
    if |a| == 0 then None
    else if a[0].0 == k then Some(a[0].1)
    else Lookup(a[1..], k)
  }

  predicate HasKey<V>(a: seq<(string, V)>, k: string) {
    Lookup(a, k).Some?
  }

  /** The entries of `base`, each with the value `over` gives its key, if any. */
  function Overlay<V>(base: seq<(string, V)>, over: seq<(string, V)>): (r: seq<(string, V)>)
    ensures |r| == |base|
    ensures forall i :: 0 <= i < |base| ==> r[i].0 == base[i].0
    decreases |base|
  {
    if |base| == 0 then []
    else [(base[0].0, Lookup(over, base[0].0).GetOr(base[0].1))] + Overlay(base[1..], over)
  }

  /** The entries of `over` whose key `base` does not have, in order. */
  function Absent<V>(over: seq<(string, V)>, base: seq<(string, V)>): seq<(string, V)>
    decreases |over|
  {
    if |over| == 0 then []
    else (if HasKey(base, over[0].0) then [] else [over[0]]) + Absent(over[1..], base)
  }

  /** `array_merge($base, $over)` for string keys: every key of `base` keeps its
      position, and the keys only `over` has follow in `over`'s order. */
  function Merge<V>(base: seq<(string, V)>, over: seq<(string, V)>): (r: seq<(string, V)>)
    ensures |r| >= |base|
    ensures forall i :: 0 <= i < |base| ==> r[i].0 == base[i].0
  {
    Overlay(base, over) + Absent(over, base)
  }

  lemma {:induction false} LookupAppend<V>(a: seq<(string, V)>, b: seq<(string, V)>, k: string)
    ensures Lookup(a + b, k) == if HasKey(a, k) then Lookup(a, k) else Lookup(b, k)
    decreases |a|
  {
    if |a| > 0 {
      assert (a + b)[0] == a[0] && (a + b)[1..] == a[1..] + b;
      if a[0].0 != k {
        assert Lookup(a + b, k) == Lookup(a[1..] + b, k);
        assert Lookup(a, k) == Lookup(a[1..], k);
        LookupAppend(a[1..], b, k);
      }
    } else {
      assert a + b == b;
    }
  }

  lemma {:induction false} LookupOverlay<V>(base: seq<(string, V)>, over: seq<(string, V)>, k: string)
    ensures Lookup(Overlay(base, over), k) ==
      if HasKey(base, k) then Some(Lookup(over, k).GetOr(Lookup(base, k).value)) else None
    decreases |base|
  {
    if |base| > 0 {
      var r := Overlay(base, over);
      assert r[1..] == Overlay(base[1..], over);
      LookupOverlay(base[1..], over, k);
    }
  }

  lemma {:induction false} LookupAbsent<V>(over: seq<(string, V)>, base: seq<(string, V)>, k: string)
    ensures Lookup(Absent(over, base), k) == if HasKey(base, k) then None else Lookup(over, k)
    decreases |over|
  {
    if |over| > 0 {
      var head: seq<(string, V)> := if HasKey(base, over[0].0) then [] else [over[0]];
      LookupAppend(head, Absent(over[1..], base), k);
      LookupAbsent(over[1..], base, k);
    }
  }

  /** After `array_merge($base, $over)` a key reads the later list's value when
      that list has the key, and the earlier list's value otherwise. */
  lemma MergeLookup<V>(base: seq<(string, V)>, over: seq<(string, V)>, k: string)
    ensures Lookup(Merge(base, over), k) == if HasKey(over, k) then Lookup(over, k) else Lookup(base, k)
  {
    LookupAppend(Overlay(base, over), Absent(over, base), k);
    LookupOverlay(base, over, k);
    LookupAbsent(over, base, k);
  }

  /** Merging nothing over a list leaves it as it is. */
  lemma {:induction false} MergeNothing<V>(base: seq<(string, V)>)
    ensures Merge(base, []) == base
    decreases |base|
  {
    if |base| > 0 {
      MergeNothing(base[1..]);
      assert Overlay(base, []) == [base[0]] + Overlay(base[1..], []);
      assert [base[0]] + base[1..] == base;
    }
  }

  /** A key of `base + [(key, v)]` is a key of `base` or `key` itself. */
  lemma HasKeySnoc<V>(base: seq<(string, V)>, key: string, v: V, k: string)
    ensures HasKey(base + [(key, v)], k) <==> HasKey(base, k) || k == key
  {
    LookupAppend(base, [(key, v)], k);
    assert [(key, v)][1..] == [];
  }

  /** Overlaying onto one more default pair adds that pair, with the caller's
      value when the caller has its key. */
  lemma {:induction false} OverlaySnoc<V>(base: seq<(string, V)>, key: string, v: V, over: seq<(string, V)>)
    ensures Overlay(base + [(key, v)], over) == Overlay(base, over) + [(key, Lookup(over, key).GetOr(v))]
    decreases |base|
  {
    var b := base + [(key, v)];
    if |base| == 0 {
      assert b == [(key, v)] && b[1..] == [];
    } else {
      assert b[0] == base[0] && b[1..] == base[1..] + [(key, v)];
      OverlaySnoc(base[1..], key, v, over);
    }
  }

  /** A key that is found is the key of some entry, with that entry's value. */
  lemma {:induction false} LookupFound<V>(a: seq<(string, V)>, k: string)
    requires HasKey(a, k)
    ensures exists i :: 0 <= i < |a| && a[i].0 == k && a[i].1 == Lookup(a, k).value
    decreases |a|
  {
    if a[0].0 != k {
      LookupFound(a[1..], k);
      var i :| 0 <= i < |a[1..]| && a[1..][i].0 == k && a[1..][i].1 == Lookup(a, k).value;
      assert a[i + 1] == a[1..][i];
    } else {
      assert a[0].0 == k && a[0].1 == Lookup(a, k).value;
    }
  }
}
