/** The save files as the writers and readers of src/util.c, src/obj.c and src/verb.c use them: an
    output that overwrites what is there, and an input that is consumed from the front. */
module Files {
  import opened Bytes
  import opened Records
  import opened Guard

  /** What is left of a file beyond its first `n` bytes. */
  function Beyond(s: string, n: nat): string {
    if n <= |s| then s[n..] else ""
  }

  /** A file opened without truncation; `was` is what it held then. */
  class Output {
    ghost const was: string
    var bytes: string
    var pos: nat

    constructor (contents: string)
      ensures was == contents && Holds("")
    {
      was, bytes, pos := contents, contents, 0;
    }

    /** Everything written so far, and then the rest of the old contents. */
    ghost predicate Holds(written: string)
      reads this
    {
      pos == |written| && bytes == written + Beyond(was, |written|)
    }

    method Write(s: string, ghost written: string)
      requires Holds(written)
      modifies this
      ensures Holds(written + s)
    {
      Overwritten(was, written, s);
      bytes := bytes[..pos] + s + Beyond(bytes, pos + |s|);
      pos := pos + |s|;
    }
  }

  lemma Overwritten(was: string, written: string, s: string)
    ensures var bytes := written + Beyond(was, |written|);
            bytes[..|written|] + s + Beyond(bytes, |written| + |s|) == written + s + Beyond(was, |written + s|)
  {
    var bytes := written + Beyond(was, |written|);
    assert bytes[..|written|] == written;
    var n := |written| + |s|;
    if n <= |was| {
      assert Beyond(bytes, n) == was[n..];
    } else {
      assert Beyond(bytes, n) == "";
    }
  }

  /** The object ids are 64 bits wide. */
  function Next(counter: int): int {
    if counter + 1 == SIZE_LIMIT then 0 else counter + 1
  }

  /** The counter after `n` more objects, unless it runs out of ids. */
  ghost predicate Advanced(before: int, n: int, after: int) {
    before >= 0 && before + n < SIZE_LIMIT ==> after == before + n
  }

  lemma AdvancedOne(before: int)
    ensures Advanced(before, 1, Next(before))
  {
  }

  lemma AdvancedThen(a: int, n: nat, b: int, k: nat, c: int)
    requires Advanced(a, n, b) && Advanced(b, k, c)
    ensures Advanced(a, n + k, c)
  {
  }

  function Prepend<T>(xs: seq<T>, r: Parse<seq<T>>): Parse<seq<T>> {
    match r
    case Fail => Fail
    case Ok(ys, rest) => Ok(xs + ys, rest)
  }

  /** Reading `n` more records after `done`, from number `i` on, leads to `goal`. */
  ghost predicate Reads<T>(goal: Parse<seq<T>>, done: seq<T>, i: int, n: nat, min: nat, read: (int, string) -> Parse<T>, rest: string) {
    forall k: nat {:trigger Opened(k)} :: Opened(k) ==> goal == Prepend(done, ReadMany(i, n, min, read, rest))
  }

  lemma ReadsStart<T>(n: nat, min: nat, read: (int, string) -> Parse<T>, rest: string)
    ensures Reads(ReadMany(0, n, min, read, rest), [], 0, n, min, read, rest)
  {
    ManyStart(ReadMany(0, n, min, read, rest));
  }

  lemma ReadsNext<T>(goal: Parse<seq<T>>, done: seq<T>, i: int, n: nat, min: nat, read: (int, string) -> Parse<T>, rest: string)
    requires Reads(goal, done, i, n, min, read, rest) && n > 0 && |rest| >= min
    ensures var r := read(i, rest);
            if r.Fail? then goal == Fail else Reads(goal, done + [r.val], i + 1, n - 1, min, read, r.rest)
  {
    assert Opened(0);
    if read(i, rest).Ok? {
      var r := ReadMany(i + 1, n - 1, min, read, read(i, rest).rest);
      if r.Ok? {
        assert done + ([read(i, rest).val] + r.val) == done + [read(i, rest).val] + r.val;
      }
    }
  }

  lemma ReadsEnd<T>(goal: Parse<seq<T>>, done: seq<T>, i: int, n: nat, min: nat, read: (int, string) -> Parse<T>, rest: string)
    requires Reads(goal, done, i, n, min, read, rest) && (n == 0 || |rest| < min)
    ensures goal == Ok(done, rest)
  {
    assert Opened(0);
    assert done + [] == done;
  }

  /** What has been read is a prefix of all that will be. */
  lemma ReadsPrefix<T>(goal: Parse<seq<T>>, done: seq<T>, i: int, n: nat, min: nat, read: (int, string) -> Parse<T>, rest: string)
    requires Reads(goal, done, i, n, min, read, rest) && goal.Ok?
    ensures done <= goal.val
  {
    assert Opened(0);
  }

  /** Equality of two readers, for use where it need not be known what the reader reads. */
  ghost predicate Same<T>(a: (int, string) -> Parse<T>, b: (int, string) -> Parse<T>) {
    forall k: nat {:trigger Sealed(k)} :: Sealed(k) ==> a == b
  }

  lemma SameReads<T>(a: (int, string) -> Parse<T>, b: (int, string) -> Parse<T>, i: int, s: string)
    requires Same(a, b)
    ensures a(i, s) == b(i, s)
  {
    assert Sealed(0);
  }

  lemma ManyStart<T>(r: Parse<seq<T>>)
    ensures Prepend([], r) == r
  {
    if r.Ok? { assert [] + r.val == r.val; }
  }

  lemma AliasStep(done: seq<string>, s: string)
    ensures var r := ReadStr(s);
            && (r.Fail? ==> Prepend(done, ReadAliases(s)) == Fail)
            && (r.Ok? && r.val == "" ==> Prepend(done, ReadAliases(s)) == Ok(done, r.rest))
            && (r.Ok? && r.val != "" ==> Prepend(done, ReadAliases(s)) == Prepend(done + [r.val], ReadAliases(r.rest)))
  {
    var r := ReadStr(s);
    assert done + [] == done;
    if r.Ok? && r.val != "" && ReadAliases(r.rest).Ok? {
      assert done + ([r.val] + ReadAliases(r.rest).val) == done + [r.val] + ReadAliases(r.rest).val;
    }
  }

  /** A file being read, with the object id counter that reading an object moves. */
  class Input {
    var rest: string
    var counter: int

    constructor (contents: string, c: int)
      ensures rest == contents && counter == c
    {
      rest, counter := contents, c;
    }

    method GetStr() returns (r: Parse<string>)
      modifies `rest
      ensures r == ReadStr(old(rest)) && rest == if r.Ok? then r.rest else old(rest)
    {
      r := ReadStr(rest);
      if r.Ok? { rest := r.rest; }
    }

    method GetSize() returns (r: Parse<int>)
      modifies `rest
      ensures r == ReadSize(old(rest)) && rest == if r.Ok? then r.rest else old(rest)
    {
      r := ReadSize(rest);
      if r.Ok? { rest := r.rest; }
    }

    method GetUint32() returns (r: Parse<int>)
      modifies `rest
      ensures r == ReadUint32(old(rest)) && rest == if r.Ok? then r.rest else old(rest)
    {
      r := ReadUint32(rest);
      if r.Ok? { rest := r.rest; }
    }

    method GetBool() returns (r: Parse<bool>)
      modifies `rest
      ensures r == ReadBool(old(rest)) && rest == if r.Ok? then r.rest else old(rest)
    {
      r := ReadBool(rest);
      if r.Ok? { rest := r.rest; }
    }

    method GetRoomId() returns (r: Parse<int>)
      modifies `rest
      ensures r == ReadRoomId(old(rest)) && rest == if r.Ok? then r.rest else old(rest)
    {
      r := ReadRoomId(rest);
      if r.Ok? { rest := r.rest; }
    }

    /** The alias loop of obj_read: up to the first empty string. */
    method GetAliases() returns (r: Parse<seq<string>>)
      modifies `rest
      ensures r == ReadAliases(old(rest)) && (r.Ok? ==> rest == r.rest)
    {
      var aliases := [];
      ManyStart(ReadAliases(rest));
      while true
        invariant ReadAliases(old(rest)) == Prepend(aliases, ReadAliases(rest))
        decreases |rest|
      {
        AliasStep(aliases, rest);
        var a := GetStr();
        if a.Fail? { return Fail; }
        if a.val == "" { return Ok(aliases, rest); }
        aliases := aliases + [a.val];
      }
    }

    /** obj_new takes the next id before obj_read overwrites it with the saved one. */
    method GetObj<U>(h: Hooks<string, U>, classes: set<string>) returns (r: Parse<Thing<U>>)
      modifies this
      ensures r == ReadObj(h, classes, old(rest))
      ensures r.Ok? ==> rest == r.rest && Advanced(old(counter), 1, counter)
    {
      var cls := GetStr();
      if cls.Fail? || cls.val !in classes { return Fail; }
      AdvancedOne(counter);
      counter := Next(counter);
      var id := GetSize();
      if id.Fail? { return Fail; }
      r := GetFields(h, cls.val, id.val);
    }

    method GetFields<U>(h: Hooks<string, U>, cls: string, id: int) returns (r: Parse<Thing<U>>)
      modifies `rest
      ensures r == ReadObjRest(h, cls, id, old(rest)) && (r.Ok? ==> rest == r.rest)
    {
      var name := GetStr();
      if name.Fail? { return Fail; }
      var hidden := GetBool();
      if hidden.Fail? { return Fail; }
      var article := GetBool();
      if article.Fail? { return Fail; }
      var aliases := GetAliases();
      if aliases.Fail? { return Fail; }
      var user := h.read(cls, rest);
      if user.Fail? { return Fail; }
      rest := user.rest;
      r := Ok(Thing(cls, id, name.val, hidden.val, article.val, aliases.val, user.val), rest);
    }
  }
}
