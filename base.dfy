/** Shared vocabulary: option and result wrappers, the errno values the HAL
    returns (negated, as in C), bit arithmetic on function masks, and the
    C-string helpers (strchr, strsep-style splitting, separator joining). */
module Base {

  datatype Option<T> = None | Some(value: T)

  /** A C return convention: 0 plus a value, or a negative errno. */
  datatype Result<T> = Ok(value: T) | Err(code: int)

  // Linux errno values.
  const ENOENT: int := 2
  const ENOMEM: int := 12
  const EEXIST: int := 17
  const EINVAL: int := 22
  const ENAMETOOLONG: int := 36
  const EOVERFLOW: int := 75
  const ENOTSUP: int := 95

  predicate NoDup<T(==)>(s: seq<T>)
  {
    forall i, j :: 0 <= i < j < |s| ==> s[i] != s[j]
  }

  // ---------------------------------------------------------------------------
  // Bits of a function mask

  /** `1 << n`: a helper for the mask bits, not an operation of the source. */
  function Pow2(n: nat): (r: nat)
    ensures r >= 1
  {
    if n == 0 then 1 else 2 * Pow2(n - 1)
  }

  /** `mask & (1 << i)` is non-zero. */
  predicate HasBit(mask: nat, i: nat)
  {
    if i == 0 then mask % 2 == 1 else HasBit(mask / 2, i - 1)
  }

  /** `__builtin_popcount`. */
  function Popcount(mask: nat): nat
  {
    if mask == 0 then 0 else mask % 2 + Popcount(mask / 2)
  }

  /** Indices of the set bits of `mask` below `n`, ascending. */
  function SetBits(mask: nat, n: nat): seq<nat>
  {
    if n == 0 then [] else SetBits(mask, n - 1) + (if HasBit(mask, n - 1) then [n - 1] else [])
  }

  /** Dropping the low bit of `mask` removes that bit from the count of set bits. */
  lemma {:induction false} SetBitsLowCount(mask: nat, n: nat)
    ensures |SetBits(mask, n + 1)| == mask % 2 + |SetBits(mask / 2, n)|
  {
    if n > 0 {
      SetBitsLowCount(mask, n - 1);
      assert HasBit(mask, n) == HasBit(mask / 2, n - 1);
    }
  }

  /** Below the width of the mask, the set bits are exactly `popcount` many. */
  lemma {:induction false} SetBitsCount(mask: nat, n: nat)
    requires mask < Pow2(n)
    ensures |SetBits(mask, n)| == Popcount(mask)
  {
    if n == 0 {
      assert mask == 0;
    } else {
      SetBitsLowCount(mask, n - 1);
      SetBitsCount(mask / 2, n - 1);
    }
  }

  lemma {:induction false} SetBitsMembers(mask: nat, n: nat)
    ensures forall k :: 0 <= k < |SetBits(mask, n)| ==> SetBits(mask, n)[k] < n
    ensures forall i: nat :: i in SetBits(mask, n) <==> i < n && HasBit(mask, i)
    ensures forall j, k :: 0 <= j < k < |SetBits(mask, n)| ==> SetBits(mask, n)[j] < SetBits(mask, n)[k]
  {
    if n > 0 {
      SetBitsMembers(mask, n - 1);
    }
  }

  lemma {:induction false} Pow2Monotone(i: nat, j: nat)
    requires i < j
    ensures Pow2(i) < Pow2(j)
  {
    if j > i + 1 {
      Pow2Monotone(i, j - 1);
    }
  }

  // ---------------------------------------------------------------------------
  // C strings (modelled as NUL-free character sequences)

  /** `strchr(s, c)`: the first position of `c`, if any. */
  function IndexOf(s: string, c: char): (r: Option<nat>)
    ensures r.Some? ==> r.value < |s| && s[r.value] == c && c !in s[..r.value]
    ensures r.None? <==> c !in s
  {
    if s == [] then None
    else if s[0] == c then Some(0)
    else match IndexOf(s[1..], c)
      case None => None
      case Some(k) => assert s[..k + 1] == [s[0]] + s[1..][..k]; Some(k + 1)
  }

  /** Successive `strsep(&p, sep)` tokens of `s`: empty tokens are kept. */
  function Split(s: string, sep: char): (r: seq<string>)
    ensures |r| >= 1
    ensures forall k :: 0 <= k < |r| ==> sep !in r[k]
    decreases |s|
  {
    match IndexOf(s, sep)
    case None => [s]
    case Some(k) => [s[..k]] + Split(s[k + 1..], sep)
  }

  /** The names written one after another, separated by `sep`, with no trailing separator. */
  function Join(names: seq<string>, sep: char): string
    requires |names| >= 1
  {
    if |names| == 1 then names[0] else names[0] + [sep] + Join(names[1..], sep)
  }

  function CountChar(s: string, c: char): nat
  {
    if s == [] then 0 else (if s[0] == c then 1 else 0) + CountChar(s[1..], c)
  }

  lemma CountCharAppend(a: string, b: string, c: char)
    ensures CountChar(a + b, c) == CountChar(a, c) + CountChar(b, c)
  {
    if a != [] {
      assert (a + b)[1..] == a[1..] + b;
      CountCharAppend(a[1..], b, c);
    } else {
      assert a + b == b;
    }
  }

  /** Splitting the joined text gives the names back, provided no name contains the separator. */
  lemma {:induction false} SplitJoin(names: seq<string>, sep: char)
    requires |names| >= 1
    requires forall k :: 0 <= k < |names| ==> sep !in names[k]
    ensures Split(Join(names, sep), sep) == names
  {
    if |names| > 1 {
      var rest := Join(names[1..], sep);
      assert Join(names, sep) == names[0] + [sep] + rest;
      SplitHead(names[0], sep, rest);
      SplitJoin(names[1..], sep);
    } else {
      assert IndexOf(names[0], sep) == None;
    }
  }

  /** A token free of the separator, then the separator: the token is
      split off first. */
  lemma SplitHead(head: string, sep: char, rest: string)
    requires sep !in head
    ensures Split(head + [sep] + rest, sep) == [head] + Split(rest, sep)
  {
    var text := head + [sep] + rest;
    assert text[|head|] == sep;
    assert text[..|head|] == head;
    assert IndexOf(text, sep) == Some(|head|);
    assert text[|head| + 1..] == rest;
  }

  /** One token per separator, plus one. */
  lemma {:induction false} SplitCount(s: string, sep: char)
    ensures |Split(s, sep)| == CountChar(s, sep) + 1
    decreases |s|
  {
    match IndexOf(s, sep)
    case None =>
      CountCharNone(s, sep);
    case Some(k) =>
      assert s == s[..k] + [sep] + s[k + 1..];
      CountCharAppend(s[..k] + [sep], s[k + 1..], sep);
      CountCharAppend(s[..k], [sep], sep);
      CountCharNone(s[..k], sep);
      SplitCount(s[k + 1..], sep);
  }

  lemma CountCharNone(s: string, c: char)
    requires c !in s
    ensures CountChar(s, c) == 0
  {
    if s != [] {
      CountCharNone(s[1..], c);
    }
  }
}
