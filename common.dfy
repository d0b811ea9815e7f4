/**
 * Vocabulary shared by every part of the animation engine: the pet's mood,
 * optional values and results, frame paths, the fixed-width integers the
 * players count with, ASCII case folding and the ordering `PathBuf::sort`
 * uses.
 */
module Common {

  datatype Option<T> = None | Some(value: T)
  {
    function UnwrapOr(default: T): T
    {
      if Some? then value else default
    }

    function OrElse(other: Option<T>): Option<T>
    {
      if Some? then this else other
    }
  }

  datatype Result<T, E> = Ok(value: T) | Err(error: E)
  {
    function UnwrapOr(default: T): T
    {
      if Ok? then value else default
    }
  }

  /** The pet's mood; `Nomal` is the program's own spelling. */
  datatype Mode = Happy | Nomal | PoorCondition | Ill

  /** One path component (a directory or file name). */
  type Name = string

  /** A path as the sequence of its components; a frame is the path of a `.png` file. */
  type Path = seq<Name>

  /** `CAROUSEL_INTERVAL_MS` of src/config.rs: the time between two animation ticks. */
  const CAROUSEL_INTERVAL_MS: nat := 130

  /** A cursor into a frame list: inside it, or 0 (the only cursor of an empty list). */
  predicate CursorIn<T>(files: seq<T>, index: nat)
  {
    index == 0 || index < |files|
  }

  const U8_LIMIT: int := 0x100
  const U32_LIMIT: int := 0x1_0000_0000
  const USIZE_LIMIT: int := 0x1_0000_0000_0000_0000

  type U8 = x: int | 0 <= x < U8_LIMIT
  type U32 = x: int | 0 <= x < U32_LIMIT

  /** Rust's `u32::wrapping_add`. */
  function WrappingAddU32(a: U32, b: U32): (r: U32)
    ensures a + b < U32_LIMIT ==> r == a + b
    ensures a + b >= U32_LIMIT ==> r == a + b - U32_LIMIT
  {
    (a + b) % U32_LIMIT
  }

  /** Rust's `u32::saturating_add`. */
  function SaturatingAddU32(a: U32, b: U32): (r: U32)
    ensures a + b < U32_LIMIT ==> r == a + b
    ensures a + b >= U32_LIMIT ==> r == U32_LIMIT - 1
  {
    if a + b < U32_LIMIT then a + b else U32_LIMIT - 1
  }

  function Max(a: int, b: int): int
  {
    if a < b then b else a
  }

  function Min(a: int, b: int): int
  {
    if a < b then a else b
  }

  // ---------------------------------------------------------------------
  // ASCII text helpers (`to_ascii_lowercase`, `eq_ignore_ascii_case`,
  // `str::contains`, `str::starts_with`)
  // ---------------------------------------------------------------------

  predicate IsAsciiUpper(c: char)
  {
    'A' <= c <= 'Z'
  }

  function LowerChar(c: char): char
  {
    if IsAsciiUpper(c) then (c as int + 32) as char else c
  }

  function ToAsciiLower(s: string): string
  {
    seq(|s|, i requires 0 <= i < |s| => LowerChar(s[i]))
  }

  /** Lower-casing twice is lower-casing once, and leaves no ASCII capital behind. */
  lemma ToAsciiLowerIdempotent(s: string)
    ensures ToAsciiLower(ToAsciiLower(s)) == ToAsciiLower(s)
    ensures forall i :: 0 <= i < |s| ==> !IsAsciiUpper(ToAsciiLower(s)[i])
  {
  }

  predicate EqIgnoreAsciiCase(a: string, b: string)
  {
    ToAsciiLower(a) == ToAsciiLower(b)
  }

  predicate StartsWith(s: string, prefix: string)
  {
    |prefix| <= |s| && s[..|prefix|] == prefix
  }

  /** `s.contains(t)`: `t` occurs in `s` at some offset. */
  predicate Contains(s: string, t: string)
    decreases |s|
  {
    StartsWith(s, t) || (s != [] && Contains(s[1..], t))
  }

  // ---------------------------------------------------------------------
  // Order of `PathBuf` values: component by component, each component
  // compared as a string (code-point order coincides with UTF-8 byte order)
  // ---------------------------------------------------------------------

  predicate NameLe(a: Name, b: Name)
    decreases |a|
  {
    if a == [] then true
    else if b == [] then false
    else if a[0] != b[0] then a[0] < b[0]
    else NameLe(a[1..], b[1..])
  }

  predicate PathLe(p: Path, q: Path)
    decreases |p|
  {
    if p == [] then true
    else if q == [] then false
    else if p[0] != q[0] then NameLe(p[0], q[0])
    else PathLe(p[1..], q[1..])
  }

  /** `t` occurs in `s` starting at offset `k`. */
  predicate OccursAt(s: string, t: string, k: int)
  {
    0 <= k && k + |t| <= |s| && s[k..k + |t|] == t
  }

  /** The recursive `Contains` is "occurs at some offset". */
  lemma {:induction false} ContainsIff(s: string, t: string)
    ensures Contains(s, t) <==> exists k :: OccursAt(s, t, k)
    decreases |s|
  {
    if StartsWith(s, t) {
      assert OccursAt(s, t, 0);
    } else if s != [] {
      ContainsIff(s[1..], t);
      if Contains(s[1..], t) {
        var k :| OccursAt(s[1..], t, k);
        assert s[1..][k..k + |t|] == s[k + 1..k + 1 + |t|];
        assert OccursAt(s, t, k + 1);
      }
      forall k | OccursAt(s, t, k)
        ensures Contains(s[1..], t)
      {
        if k != 0 {
          assert s[1..][k - 1..k - 1 + |t|] == s[k..k + |t|];
          assert OccursAt(s[1..], t, k - 1);
        }
      }
    }
  }

  lemma {:induction false} NameLeTotal(a: Name, b: Name)
    ensures NameLe(a, b) || NameLe(b, a)
    decreases |a|
  {
    if a != [] && b != [] && a[0] == b[0] {
      NameLeTotal(a[1..], b[1..]);
    }
  }

  lemma {:induction false} PathLeTotal(p: Path, q: Path)
    ensures PathLe(p, q) || PathLe(q, p)
    decreases |p|
  {
    if p != [] && q != [] {
      if p[0] != q[0] {
        NameLeTotal(p[0], q[0]);
      } else {
        PathLeTotal(p[1..], q[1..]);
      }
    }
  }

  predicate SortedPaths(s: seq<Path>)
  {
    forall i :: 0 < i < |s| ==> PathLe(s[i - 1], s[i])
  }

  /** Inserts `x` into a sorted list, keeping it sorted. */
  function InsertPath(x: Path, s: seq<Path>): (r: seq<Path>)
    requires SortedPaths(s)
    ensures SortedPaths(r)
    ensures multiset(r) == multiset(s) + multiset{x}
    ensures |r| == |s| + 1
    ensures s == [] || r[0] == x || r[0] == s[0]
  {
    if s == [] then [x]
    else if PathLe(x, s[0]) then [x] + s
    else
      PathLeTotal(x, s[0]);
      var tail := InsertPath(x, s[1..]);
      assert s == [s[0]] + s[1..];
      [s[0]] + tail
  }

  /** `Vec<PathBuf>::sort`: the sorted permutation of the input. */
  function SortPaths(s: seq<Path>): (r: seq<Path>)
    ensures SortedPaths(r)
    ensures multiset(r) == multiset(s)
  {
    if s == [] then []
    else
      assert s == [s[0]] + s[1..];
      InsertPath(s[0], SortPaths(s[1..]))
  }

  // ---------------------------------------------------------------------
  // Order-preserving filters (`iter().filter(..).collect()`, `retain`)
  // ---------------------------------------------------------------------

  /** `a` is `b` with some elements dropped and the rest kept in order. */
  predicate IsSublist<T(==)>(a: seq<T>, b: seq<T>)
    decreases |b|
  {
    if a == [] then true
    else if b == [] then false
    else if a[0] == b[0] then IsSublist(a[1..], b[1..])
    else IsSublist(a, b[1..])
  }

  /** Every list is a sub-list of itself. */
  lemma {:induction false} SublistRefl<T>(a: seq<T>)
    ensures IsSublist(a, a)
    decreases |a|
  {
    if a != [] {
      SublistRefl(a[1..]);
    }
  }

  /** Dropping the first kept element keeps a sub-list. */
  lemma {:induction false} SublistDropHead<T>(a: seq<T>, b: seq<T>)
    requires a != [] && IsSublist(a, b)
    ensures IsSublist(a[1..], b)
    decreases |b|, 1
  {
    if a[0] == b[0] {
      SublistConsRight(a[1..], b);
    } else {
      SublistDropHead(a, b[1..]);
      SublistConsRight(a[1..], b);
    }
  }

  /** A sub-list of the tail is a sub-list of the whole. */
  lemma {:induction false} SublistConsRight<T>(a: seq<T>, b: seq<T>)
    requires b != [] && IsSublist(a, b[1..])
    ensures IsSublist(a, b)
    decreases |b|, 0
  {
    if a != [] && a[0] == b[0] {
      SublistDropHead(a, b[1..]);
    }
  }

  /** Sub-lists compose: a filter of a filter keeps the order of the original. */
  lemma {:induction false} SublistTrans<T>(a: seq<T>, b: seq<T>, c: seq<T>)
    requires IsSublist(a, b) && IsSublist(b, c)
    ensures IsSublist(a, c)
    decreases |c|
  {
    if a != [] {
      if b[0] == c[0] {
        if a[0] == b[0] {
          SublistTrans(a[1..], b[1..], c[1..]);
        } else {
          SublistTrans(a, b[1..], c[1..]);
          SublistConsRight(a, c);
        }
      } else {
        SublistTrans(a, b, c[1..]);
        SublistConsRight(a, c);
      }
    }
  }

  function Filter<T(==,!new)>(s: seq<T>, keep: T -> bool): (r: seq<T>)
    ensures forall x :: x in r <==> x in s && keep(x)
    ensures IsSublist(r, s)
    ensures |r| <= |s|
  {
    if s == [] then []
    else
      var tail := Filter(s[1..], keep);
      assert s == [s[0]] + s[1..];
      if keep(s[0]) then [s[0]] + tail else tail
  }

  /** A filter comes back empty exactly when no element passes the test. */
  lemma FilterEmpty<T(!new)>(s: seq<T>, keep: T -> bool)
    ensures Filter(s, keep) == [] <==> forall x :: x in s ==> !keep(x)
  {
    if Filter(s, keep) != [] {
      assert Filter(s, keep)[0] in Filter(s, keep);
    }
  }

  lemma {:induction false} FilterAll<T(!new)>(s: seq<T>, keep: T -> bool)
    requires forall x :: x in s ==> keep(x)
    ensures Filter(s, keep) == s
  {
    if s != [] {
      FilterAll(s[1..], keep);
    }
  }

  /** Each frame of `frames`, shown in turn. */
  function Shown(frames: seq<Path>): seq<Option<Path>>
  {
    if frames == [] then [] else [Some(frames[0])] + Shown(frames[1..])
  }

  /** `frames`, `n` times over. */
  function Repeat(frames: seq<Path>, n: nat): seq<Path>
  {
    if n == 0 then [] else frames + Repeat(frames, n - 1)
  }

  lemma {:induction false} ShownAppend(x: seq<Path>, y: seq<Path>)
    ensures Shown(x + y) == Shown(x) + Shown(y)
  {
    if x == [] {
      assert x + y == y;
    } else {
      assert (x + y)[0] == x[0] && (x + y)[1..] == x[1..] + y;
      ShownAppend(x[1..], y);
      assert Shown(x + y) == [Some(x[0])] + (Shown(x[1..]) + Shown(y));
    }
  }

  /** The B frames owed from cursor `i` with `remaining` passes: the rest of this pass, then whole passes. */
  function Owed(b: seq<Path>, i: nat, remaining: nat): seq<Path>
    requires i <= |b| && remaining >= 1
  {
    b[i..] + Repeat(b, remaining - 1)
  }

  /** The owed frames start with the one at the cursor, followed by what is owed after it. */
  lemma OwedStep(b: seq<Path>, i: nat, remaining: nat)
    requires i < |b| && remaining >= 1
    ensures i + 1 < |b| ==> Owed(b, i, remaining) == [b[i]] + Owed(b, i + 1, remaining)
    ensures i + 1 == |b| && remaining > 1 ==> Owed(b, i, remaining) == [b[i]] + Owed(b, 0, remaining - 1)
  {
    assert b[i..] == [b[i]] + b[i + 1..];
    if i + 1 == |b| && remaining > 1 {
      assert b[i + 1..] == [];
      assert Repeat(b, remaining - 1) == b + Repeat(b, remaining - 2);
      assert b[0..] == b;
    }
  }

  /** The owed frames are the rest of this pass followed by what is owed from the next pass on. */
  lemma OwedPass(b: seq<Path>, i: nat, remaining: nat)
    requires i <= |b| && remaining > 1
    ensures Owed(b, i, remaining) == b[i..] + Owed(b, 0, remaining - 1)
  {
    assert Repeat(b, remaining - 1) == b + Repeat(b, remaining - 2);
    assert b[0..] == b;
  }

  lemma ShownCons(x: Path, rest: seq<Path>)
    ensures Shown([x] + rest) == [Some(x)] + Shown(rest)
  {
    assert ([x] + rest)[0] == x && ([x] + rest)[1..] == rest;
  }
}
