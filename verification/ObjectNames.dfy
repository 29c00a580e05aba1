/** The keys of the object multimaps: hash_djb of src/hash.c looks at every character as it is,
    while the compare function that src/room.c and src/userdb.c give those tables ignores case.
    So the two fit together on exactly the names without letters. */
module ObjectNames {
  import opened HashSpec

  const UINT_MOD: int := 0x1_0000_0000

  /** Exclusive or of the `k` low bits. */
  function Xor(a: int, b: int, k: nat): (r: int)
    requires 0 <= a && 0 <= b
    ensures 0 <= r < Pow2(k)
    decreases k, 0
  {
    if k == 0 then 0 else (a % 2 + b % 2) % 2 + 2 * Xor(a / 2, b / 2, k - 1)
  }

  function Pow2(k: nat): (r: int)
    ensures r > 0
  {
    if k == 0 then 1 else 2 * Pow2(k - 1)
  }

  lemma Pow32()
    ensures Pow2(32) == UINT_MOD
  {
    assert Pow2(8) == 256;
    assert Pow2(16) == 256 * Pow2(8);
    assert Pow2(24) == 256 * Pow2(16);
    assert Pow2(32) == 256 * Pow2(24);
  }

  predicate Byte(c: char) { c as int < 256 }

  predicate AllBytes(s: string) {
    forall i :: 0 <= i < |s| ==> Byte(s[i])
  }

  /** A byte as unsigned int: where char is signed, bytes of 128 and above are sign-extended. */
  function Extend(c: char, signed: bool): (r: int)
    requires Byte(c)
    ensures 0 <= r < UINT_MOD
  {
    if signed && c as int >= 128 then c as int + UINT_MOD - 256 else c as int
  }

  /** One round of hash_djb: h * 33 in 32 bits, then exclusive or. */
  function Mix(h: int, c: char, signed: bool): (r: int)
    requires 0 <= h && Byte(c)
    ensures 0 <= r < UINT_MOD
  {
    Pow32();
    Xor(h * 33 % UINT_MOD, Extend(c, signed), 32)
  }

  function Djb(h: int, s: string, signed: bool): (r: int)
    requires 0 <= h && AllBytes(s)
    ensures 0 <= r
    decreases |s|
  {
    if s == "" then h else Djb(Mix(h, s[0], signed), s[1..], signed)
  }

  function LowerChar(c: char): char {
    if 'A' <= c <= 'Z' then (c as int + 32) as char else c
  }

  function LowerAll(s: string): (r: string)
    ensures |r| == |s| && forall i :: 0 <= i < |s| ==> r[i] == LowerChar(s[i])
  {
    seq(|s|, i requires 0 <= i < |s| => LowerChar(s[i]))
  }

  function HashOf(s: string, signed: bool): nat {
    if AllBytes(s) then Djb(5381, s, signed) else 0
  }

  /** What the tables of objects are made with. */
  function ObjectKeys(signed: bool): KeyOps<string, string> {
    KeyOps(s => HashOf(s, signed), LowerAll)
  }

  // hash_djb loses nothing from round to round

  lemma {:induction false} XorInjective(a: int, b: int, c: int, k: nat)
    requires 0 <= a < Pow2(k) && 0 <= b < Pow2(k) && 0 <= c
    ensures Xor(a, c, k) == Xor(b, c, k) ==> a == b
    ensures Xor(c, a, k) == Xor(c, b, k) ==> a == b
    decreases k
  {
    if k > 0 {
      XorInjective(a / 2, b / 2, c / 2, k - 1);
    }
  }

  lemma Times33Injective(g: int, h: int)
    requires 0 <= g < UINT_MOD && 0 <= h < UINT_MOD && g * 33 % UINT_MOD == h * 33 % UINT_MOD
    ensures g == h
  {
    var n := g * 33 / UINT_MOD - h * 33 / UINT_MOD;
    assert 33 * (g - h) == n * UINT_MOD;
    assert 33 * 1041204193 == 1 + 8 * UINT_MOD;
    assert (1 + 8 * UINT_MOD) * (g - h) == 1041204193 * (n * UINT_MOD);
    assert g - h == UINT_MOD * (1041204193 * n - 8 * (g - h));
  }

  lemma MixInjective(g: int, h: int, c: char, d: char, signed: bool)
    requires 0 <= g < UINT_MOD && 0 <= h < UINT_MOD && Byte(c) && Byte(d)
    ensures c == d && Mix(g, c, signed) == Mix(h, d, signed) ==> g == h
    ensures g == h && Mix(g, c, signed) == Mix(h, d, signed) ==> c == d
  {
    var m, n := g * 33 % UINT_MOD, h * 33 % UINT_MOD;
    Pow32();
    XorInjective(m, n, Extend(c, signed), 32);
    XorInjective(Extend(c, signed), Extend(d, signed), m, 32);
    if c == d && Mix(g, c, signed) == Mix(h, d, signed) {
      Times33Injective(g, h);
    }
  }

  lemma {:induction false} DjbInjective(g: int, h: int, s: string, signed: bool)
    requires 0 <= g < UINT_MOD && 0 <= h < UINT_MOD && AllBytes(s)
    ensures Djb(g, s, signed) == Djb(h, s, signed) ==> g == h
    decreases |s|
  {
    if s != "" {
      MixInjective(g, h, s[0], s[0], signed);
      DjbInjective(Mix(g, s[0], signed), Mix(h, s[0], signed), s[1..], signed);
    }
  }

  /** Names that differ in one character have different hashes. */
  lemma {:induction false} DjbSeparates(h: int, s: string, i: nat, d: char, signed: bool)
    requires 0 <= h < UINT_MOD && AllBytes(s) && i < |s| && Byte(d) && s[i] != d
    ensures Djb(h, s, signed) != Djb(h, s[i := d], signed)
    decreases |s|
  {
    var t := s[i := d];
    if i == 0 {
      assert t[1..] == s[1..];
      MixInjective(h, h, s[0], d, signed);
      DjbInjective(Mix(h, s[0], signed), Mix(h, d, signed), s[1..], signed);
    } else {
      assert t[1..] == s[1..][i - 1 := d];
      DjbSeparates(Mix(h, s[0], signed), s[1..], i - 1, d, signed);
    }
  }

  // where hash and compare function fit together

  predicate Letter(c: char) {
    'A' <= c <= 'Z' || 'a' <= c <= 'z'
  }

  function OtherCase(c: char): char
    requires Letter(c)
  {
    if 'A' <= c <= 'Z' then (c as int + 32) as char else (c as int - 32) as char
  }

  /** All names that compare equal to `s` hash like it. */
  ghost predicate Fits(s: string, signed: bool) {
    forall t :: AllBytes(t) && LowerAll(t) == LowerAll(s) ==> HashOf(t, signed) == HashOf(s, signed)
  }

  /** A name with a letter compares equal to the name with that letter in the other case, which
      has another hash. */
  lemma OtherCaseLost(s: string, i: nat, signed: bool)
    requires AllBytes(s) && i < |s| && Letter(s[i])
    ensures var t := s[i := OtherCase(s[i])];
            AllBytes(t) && LowerAll(t) == LowerAll(s) && HashOf(t, signed) != HashOf(s, signed)
  {
    var d := OtherCase(s[i]);
    var t := s[i := d];
    CaseIs(s[i]);
    DjbSeparates(5381, s, i, d, signed);
    LowerSame(s, i, d);
    BytesSet(s, i, d);
    assert HashOf(t, signed) == Djb(5381, t, signed) && HashOf(s, signed) == Djb(5381, s, signed);
  }

  lemma CaseIs(c: char)
    requires Letter(c)
    ensures OtherCase(c) != c && Byte(OtherCase(c)) && LowerChar(OtherCase(c)) == LowerChar(c)
  {
  }

  lemma LowerSame(s: string, i: nat, d: char)
    requires i < |s| && LowerChar(d) == LowerChar(s[i])
    ensures LowerAll(s[i := d]) == LowerAll(s)
  {
    forall j | 0 <= j < |s| ensures LowerAll(s[i := d])[j] == LowerAll(s)[j] {
      assert j != i ==> s[i := d][j] == s[j];
    }
  }

  lemma BytesSet(s: string, i: nat, d: char)
    requires AllBytes(s) && i < |s| && Byte(d)
    ensures AllBytes(s[i := d])
  {
  }

  lemma OnlyItself(s: string, t: string)
    requires LowerAll(t) == LowerAll(s) && forall i :: 0 <= i < |s| ==> !Letter(s[i])
    ensures t == s
  {
    assert |t| == |LowerAll(t)| == |s|;
    forall i | 0 <= i < |s| ensures t[i] == s[i] {
      assert LowerChar(t[i]) == LowerAll(t)[i] == LowerAll(s)[i] == LowerChar(s[i]);
      assert !Letter(s[i]);
    }
  }

  /** The two functions fit together on exactly the names without letters. */
  lemma FitsWithoutLetters(s: string, signed: bool)
    requires AllBytes(s)
    ensures Fits(s, signed) <==> forall i :: 0 <= i < |s| ==> !Letter(s[i])
  {
    if i: nat :| i < |s| && Letter(s[i]) {
      OtherCaseLost(s, i, signed);
    } else {
      forall t | AllBytes(t) && LowerAll(t) == LowerAll(s) ensures HashOf(t, signed) == HashOf(s, signed) {
        OnlyItself(s, t);
      }
    }
  }

  /** So the tables' demand on their key functions is not met. */
  lemma NotCompatible(signed: bool)
    ensures !Compatible(ObjectKeys(signed))
  {
    OtherCaseLost("a", 0, signed);
    var t := "a"[0 := OtherCase('a')];
    var ops := ObjectKeys(signed);
    assert ops.norm("a") == ops.norm(t) && ops.hash("a") != ops.hash(t);
  }

  /** Among names in lower case they do fit: such names compare equal only if they are the same. */
  lemma LowerCaseFits(s: string, t: string, signed: bool)
    requires LowerAll(s) == s && LowerAll(t) == t
    ensures LowerAll(s) == LowerAll(t) <==> s == t
    ensures LowerAll(s) == LowerAll(t) ==> HashOf(s, signed) == HashOf(t, signed)
  {
  }
}
