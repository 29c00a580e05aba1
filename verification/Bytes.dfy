/** The primitive readers and writers of src/util.c on a file seen as a string of bytes.  A writer
    is the bytes it emits; a reader takes what is left of the file and gives back the rest.
    Integers are little-endian, sizes are 8 bytes wide and room ids 4 (an x86-64 build). */
module Bytes {
  import opened Guard

  /** `Fail` stands for the readers' abort on a short file. */
  datatype Parse<+T> = Fail | Ok(val: T, rest: string)

  function Pow256(k: nat): (r: int)
    ensures r > 0
  {
    if k == 0 then 1 else 256 * Pow256(k - 1)
  }

  /** The `k` low bytes of `n` in two's complement, lowest first. */
  function Le(n: int, k: nat): (s: string)
    ensures |s| == k
    decreases k, n
  {
    if k == 0 then "" else [(n % 256) as char] + Le(n / 256, k - 1)
  }

  function UnLe(s: string): (n: int)
    ensures n >= 0
  {
    if s == "" then 0 else s[0] as int + 256 * UnLe(s[1..])
  }

  lemma {:induction false} LeRoundTrip(n: int, k: nat)
    requires 0 <= n < Pow256(k)
    ensures UnLe(Le(n, k)) == n
  {
    if k > 0 {
      assert 0 <= n / 256 < Pow256(k - 1);
      LeRoundTrip(n / 256, k - 1);
      assert Le(n, k)[1..] == Le(n / 256, k - 1);
    }
  }

  lemma {:induction false} LeWraps(n: int, k: nat)
    ensures Le(n, k) == Le(n + Pow256(k), k)
    decreases k
  {
    if k > 0 {
      var p := Pow256(k - 1);
      assert (n + 256 * p) / 256 == n / 256 + p && (n + 256 * p) % 256 == n % 256;
      LeWraps(n / 256, k - 1);
    }
  }

  function ReadLe(k: nat, s: string): Parse<int> {
    if |s| < k then Fail else Ok(UnLe(s[..k]), s[k..])
  }

  lemma FourBytes(s: string)
    requires |s| == 4
    ensures UnLe(s) == s[0] as int + 0x100 * s[1] as int + 0x1_0000 * s[2] as int + 0x100_0000 * s[3] as int
  {
    var s1, s2, s3 := s[1..], s[2..], s[3..];
    assert s1[1..] == s2 && s2[1..] == s3 && s3[1..] == "";
  }

  lemma ReadLeBack(n: int, k: nat, rest: string)
    requires 0 <= n < Pow256(k)
    ensures ReadLe(k, Le(n, k) + rest) == Ok(n, rest)
  {
    LeRoundTrip(n, k);
    var s := Le(n, k) + rest;
    assert s[..k] == Le(n, k) && s[k..] == rest;
  }

  // write_size, write_uint64, write_uint32

  const SIZE_LIMIT: int := 0x1_0000_0000_0000_0000
  const UINT32_LIMIT: int := 0x1_0000_0000

  function SizeT(n: int): string { Le(n, 8) }

  function ReadSize(s: string): Parse<int> { ReadLe(8, s) }

  lemma Limits()
    ensures Pow256(8) == SIZE_LIMIT && Pow256(4) == UINT32_LIMIT
  {
    assert Pow256(2) == 0x1_0000 && Pow256(3) == 0x100_0000;
    assert Pow256(5) == 256 * Pow256(4) && Pow256(6) == 256 * Pow256(5);
    assert Pow256(7) == 256 * Pow256(6) && Pow256(8) == 256 * Pow256(7);
  }

  lemma SizeBack(n: int, rest: string)
    requires 0 <= n < SIZE_LIMIT
    ensures ReadSize(SizeT(n) + rest) == Ok(n, rest)
  {
    Limits();
    ReadLeBack(n, 8, rest);
  }

  function Uint32(n: int): string { Le(n, 4) }

  function ReadUint32(s: string): Parse<int> { ReadLe(4, s) }

  lemma Uint32Back(n: int, rest: string)
    requires 0 <= n < UINT32_LIMIT
    ensures ReadUint32(Uint32(n) + rest) == Ok(n, rest)
  {
    Limits();
    ReadLeBack(n, 4, rest);
  }

  // write_roomid: a 4-byte two's complement integer

  predicate IsInt32(n: int) { -0x8000_0000 <= n < 0x8000_0000 }

  function RoomId(n: int): string { Le(n, 4) }

  function ReadRoomId(s: string): Parse<int> {
    match ReadLe(4, s)
    case Fail => Fail
    case Ok(n, rest) => Ok(if n >= 0x8000_0000 then n - UINT32_LIMIT else n, rest)
  }

  lemma RoomIdBack(n: int, rest: string)
    requires IsInt32(n)
    ensures ReadRoomId(RoomId(n) + rest) == Ok(n, rest)
  {
    Limits();
    if n < 0 { LeWraps(n, 4); }
    ReadLeBack(if n < 0 then n + UINT32_LIMIT else n, 4, rest);
  }

  // write_bool

  function Bool(b: bool): string { [if b then 1 as char else 0 as char] }

  function ReadBool(s: string): Parse<bool> {
    if s == "" then Fail else Ok(s[0] != 0 as char, s[1..])
  }

  lemma BoolBack(b: bool, rest: string)
    ensures ReadBool(Bool(b) + rest) == Ok(b, rest)
  {
    assert (Bool(b) + rest)[1..] == rest;
  }

  // write_string: the length, then the characters without their NUL

  const NUL: char := 0 as char

  /** What a C string can hold, and a size_t can count. */
  predicate Text(s: string) {
    |s| < SIZE_LIMIT && NUL !in s
  }

  function Str(s: string): (r: string)
    ensures |r| == 8 + |s|
  {
    SizeT(|s|) + s
  }

  /** The characters before the first NUL: what is read back is used as a C string. */
  function CString(s: string): (r: string)
    ensures |r| <= |s|
  {
    if s == "" || s[0] == NUL then "" else [s[0]] + CString(s[1..])
  }

  lemma {:induction false} CStringIs(s: string)
    ensures var r := CString(s); r == s[..|r|] && NUL !in r && (|r| < |s| ==> s[|r|] == NUL)
  {
    if s != "" && s[0] != NUL { CStringIs(s[1..]); }
  }

  lemma {:induction false} CStringOfText(s: string)
    requires NUL !in s
    ensures CString(s) == s
  {
    if s != "" { CStringOfText(s[1..]); }
  }

  function ReadStr(s: string): (r: Parse<string>)
    ensures r.Ok? ==> |r.rest| + 8 <= |s|
  {
    match ReadSize(s)
    case Fail => Fail
    case Ok(n, rest) => if |rest| < n then Fail else Ok(CString(rest[..n]), rest[n..])
  }

  lemma StrBack(s: string, rest: string)
    requires Text(s)
    ensures ReadStr(Str(s) + rest) == Ok(s, rest)
  {
    assert Str(s) + rest == SizeT(|s|) + (s + rest);
    SizeBack(|s|, s + rest);
    CStringOfText(s);
    assert (s + rest)[..|s|] == s && (s + rest)[|s|..] == rest;
  }

  lemma Assoc(a: string, b: string, c: string)
    ensures (a + b) + c == a + (b + c)
  {
  }

  // lists of records; a record's writer and reader may depend on its number

  function WriteMany<T>(i: int, xs: seq<T>, write: (int, T) -> string): string
    decreases |xs|
  {
    if xs == [] then "" else write(i, xs[0]) + WriteMany(i + 1, xs[1..], write)
  }

  /** Up to `n` records read one after the other, fewer if less than `min` bytes are left. */
  function ReadMany<T>(i: int, n: nat, min: nat, read: (int, string) -> Parse<T>, s: string): (r: Parse<seq<T>>)
    ensures r.Ok? && min == 0 ==> |r.val| == n
    decreases n
  {
    if n == 0 || |s| < min then Ok([], s)
    else match read(i, s)
      case Fail => Fail
      case Ok(x, rest) =>
        match ReadMany(i + 1, n - 1, min, read, rest)
        case Fail => Fail
        case Ok(xs, end) => Ok([x] + xs, end)
  }

  /** Reading gives `y` back from what was written of `x`. */
  ghost predicate Undoes<S, T>(write: (int, S) -> string, read: (int, string) -> Parse<T>, min: nat, i: int, x: S, y: T) {
    forall k: nat {:trigger Opened(k)} :: Opened(k) ==>
      |write(i, x)| >= min && forall rest :: read(i, write(i, x) + rest) == Ok(y, rest)
  }

  ghost predicate UndoesAll<S, T>(write: (int, S) -> string, read: (int, string) -> Parse<T>, min: nat, i: int, xs: seq<S>, ys: seq<T>) {
    forall k: nat {:trigger Opened(k)} :: Opened(k) ==>
      |xs| == |ys| && forall j :: 0 <= j < |xs| ==> Undoes(write, read, min, i + j, xs[j], ys[j])
  }

  lemma ManyBack<S, T>(i: int, xs: seq<S>, ys: seq<T>, write: (int, S) -> string, read: (int, string) -> Parse<T>, min: nat, rest: string)
    requires UndoesAll(write, read, min, i, xs, ys)
    ensures ReadMany(i, |xs|, min, read, WriteMany(i, xs, write) + rest) == Ok(ys, rest)
  {
    ManyEnd(i, |xs|, xs, ys, write, read, min, rest);
  }

  /** Of a list that is cut off before it has `n` records, those before the cut come back. */
  lemma {:induction false} ManyEnd<S, T>(i: int, n: nat, xs: seq<S>, ys: seq<T>, write: (int, S) -> string, read: (int, string) -> Parse<T>,
                                         min: nat, rest: string)
    requires UndoesAll(write, read, min, i, xs, ys) && |xs| <= n && (|xs| == n || |rest| < min)
    ensures ReadMany(i, n, min, read, WriteMany(i, xs, write) + rest) == Ok(ys, rest)
    decreases |xs|
  {
    assert Opened(0);
    if xs == [] {
      assert WriteMany(i, xs, write) + rest == rest;
    } else {
      assert Undoes(write, read, min, i + 0, xs[0], ys[0]);
      forall j | 0 <= j < |xs[1..]| ensures Undoes(write, read, min, i + 1 + j, xs[1..][j], ys[1..][j]) {
        assert Undoes(write, read, min, i + (j + 1), xs[j + 1], ys[j + 1]);
      }
      ManyEnd(i + 1, n - 1, xs[1..], ys[1..], write, read, min, rest);
      Assoc(write(i, xs[0]), WriteMany(i + 1, xs[1..], write), rest);
      assert [ys[0]] + ys[1..] == ys;
    }
  }
}
