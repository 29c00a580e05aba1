/** The records of the save files: verbs (src/verb.c), objects (src/obj.c) and the rooms of
    src/world.c, each with its writer and its reader.  What the world module's own hooks save is a
    value of type U, written and read back by a pair of functions. */
module Records {
  import opened Bytes

  datatype Hooks<!K, !U> = Hooks(write: (K, U) -> string, read: (K, string) -> Parse<U>)

  /** The reading hook undoes the writing hook and leaves the rest of the file alone. */
  ghost predicate Inverse<K(!new), U(!new)>(h: Hooks<K, U>) {
    forall k, u, r :: h.read(k, h.write(k, u) + r) == Ok(u, r)
  }

  // verbs

  datatype Verb = Verb(cls: string, name: string)

  function WriteVerb(v: Verb): string { Str(v.cls) + Str(v.name) }

  function ReadVerb(classes: set<string>, s: string): Parse<Verb> {
    match ReadStr(s)
    case Fail => Fail
    case Ok(cls, s1) =>
      if cls !in classes then Fail
      else match ReadStr(s1)
        case Fail => Fail
        case Ok(name, s2) => Ok(Verb(cls, name), s2)
  }

  lemma VerbBack(classes: set<string>, v: Verb, rest: string)
    requires Text(v.cls) && Text(v.name) && v.cls in classes
    ensures ReadVerb(classes, WriteVerb(v) + rest) == Ok(v, rest)
  {
    assert WriteVerb(v) + rest == Str(v.cls) + (Str(v.name) + rest);
    StrBack(v.cls, Str(v.name) + rest);
    StrBack(v.name, rest);
  }

  // objects

  datatype Thing<U> = Thing(cls: string, id: int, name: string, hidden: bool, article: bool, aliases: seq<string>, user: U)

  /** The alias list ends with an empty string. */
  function WriteAliases(aliases: seq<string>): string {
    if aliases == [] then Str("") else Str(aliases[0]) + WriteAliases(aliases[1..])
  }

  function ReadAliases(s: string): Parse<seq<string>>
    decreases |s|
  {
    match ReadStr(s)
    case Fail => Fail
    case Ok(a, s1) =>
      if a == "" then Ok([], s1)
      else match ReadAliases(s1)
        case Fail => Fail
        case Ok(more, s2) => Ok([a] + more, s2)
  }

  /** The aliases before the first empty one. */
  function Nonempty(aliases: seq<string>): seq<string> {
    if aliases == [] || aliases[0] == "" then [] else [aliases[0]] + Nonempty(aliases[1..])
  }

  lemma {:induction false} AliasesBack(aliases: seq<string>, rest: string)
    requires forall i :: 0 <= i < |aliases| ==> Text(aliases[i])
    ensures var r := ReadAliases(WriteAliases(aliases) + rest);
            r.Ok? && r.val == Nonempty(aliases) && ("" !in aliases ==> r.rest == rest)
  {
    if aliases == [] {
      StrBack("", rest);
    } else {
      var tail := WriteAliases(aliases[1..]) + rest;
      assert WriteAliases(aliases) + rest == Str(aliases[0]) + tail;
      StrBack(aliases[0], tail);
      forall i | 0 <= i < |aliases[1..]| ensures Text(aliases[1..][i]) { assert aliases[1..][i] == aliases[i + 1]; }
      AliasesBack(aliases[1..], rest);
      assert aliases == [aliases[0]] + aliases[1..];
    }
  }

  lemma {:induction false} NonemptyIsAll(aliases: seq<string>)
    ensures Nonempty(aliases) == aliases <==> "" !in aliases
    ensures "" !in Nonempty(aliases)
  {
    if aliases != [] {
      NonemptyIsAll(aliases[1..]);
      assert aliases == [aliases[0]] + aliases[1..];
      assert aliases[0] != "" ==> Nonempty(aliases)[1..] == Nonempty(aliases[1..]);
    }
  }

  function WriteObj<U>(h: Hooks<string, U>, o: Thing<U>): string {
    Str(o.cls) + (SizeT(o.id) + WriteObjRest(h, o))
  }

  function WriteObjRest<U>(h: Hooks<string, U>, o: Thing<U>): string {
    Str(o.name) + (Bool(o.hidden) + (Bool(o.article) + (WriteAliases(o.aliases) + h.write(o.cls, o.user))))
  }

  function ReadObj<U>(h: Hooks<string, U>, classes: set<string>, s: string): Parse<Thing<U>> {
    match ReadStr(s)
    case Fail => Fail
    case Ok(cls, s1) =>
      if cls !in classes then Fail
      else match ReadSize(s1)
        case Fail => Fail
        case Ok(id, s2) => ReadObjRest(h, cls, id, s2)
  }

  function ReadObjRest<U>(h: Hooks<string, U>, cls: string, id: int, s2: string): Parse<Thing<U>> {
    match ReadStr(s2)
    case Fail => Fail
    case Ok(name, s3) =>
      match ReadBool(s3)
      case Fail => Fail
      case Ok(hidden, s4) =>
        match ReadBool(s4)
        case Fail => Fail
        case Ok(article, s5) =>
          match ReadAliases(s5)
          case Fail => Fail
          case Ok(aliases, s6) =>
            match h.read(cls, s6)
            case Fail => Fail
            case Ok(user, s7) => Ok(Thing(cls, id, name, hidden, article, aliases, user), s7)
  }

  /** What the C representation of an object can hold, of a class the world module defines. */
  ghost predicate Storable<U>(classes: set<string>, o: Thing<U>) {
    && o.cls in classes && Text(o.cls) && Text(o.name)
    && 0 <= o.id < SIZE_LIMIT
    && forall i :: 0 <= i < |o.aliases| ==> Text(o.aliases[i])
  }

  lemma RegroupFour(a: string, b: string, c: string, d: string, rest: string)
    ensures a + (b + (c + d)) + rest == a + (b + (c + (d + rest)))
  {
    assert (c + d) + rest == c + (d + rest);
    assert (b + (c + d)) + rest == b + ((c + d) + rest);
    assert a + (b + (c + d)) + rest == a + ((b + (c + d)) + rest);
  }

  lemma Regroup(a: string, b: string, c: string, d: string, e: string, rest: string)
    ensures a + (b + (c + (d + e))) + rest == a + (b + (c + (d + (e + rest))))
  {
    assert (d + e) + rest == d + (e + rest);
    assert (c + (d + e)) + rest == c + ((d + e) + rest);
    assert (b + (c + (d + e))) + rest == b + ((c + (d + e)) + rest);
    assert a + (b + (c + (d + e))) + rest == a + ((b + (c + (d + e))) + rest);
  }

  lemma RegroupSix(z: string, a: string, b: string, c: string, d: string, e: string, rest: string)
    ensures z + (a + (b + (c + (d + e)))) + rest == z + (a + (b + (c + (d + (e + rest)))))
  {
    var tail := a + (b + (c + (d + e)));
    Regroup(a, b, c, d, e, rest);
    assert (z + tail) + rest == z + (tail + rest);
  }

  lemma ObjRestBack<U(!new)>(h: Hooks<string, U>, o: Thing<U>, rest: string)
    requires Inverse(h) && Text(o.name) && forall i :: 0 <= i < |o.aliases| ==> Text(o.aliases[i])
    ensures var r := ReadObjRest(h, o.cls, o.id, WriteObjRest(h, o) + rest);
            if "" in o.aliases then r.Ok? ==> "" !in r.val.aliases else r == Ok(o, rest)
  {
    var s7 := h.write(o.cls, o.user) + rest;
    var s6 := WriteAliases(o.aliases) + s7;
    var s5 := Bool(o.article) + s6;
    var s4 := Bool(o.hidden) + s5;
    Regroup(Str(o.name), Bool(o.hidden), Bool(o.article), WriteAliases(o.aliases), h.write(o.cls, o.user), rest);
    StrBack(o.name, s4);
    BoolBack(o.hidden, s5);
    BoolBack(o.article, s6);
    AliasesBack(o.aliases, s7);
    NonemptyIsAll(o.aliases);
  }

  /** An object comes back as it was exactly when none of its aliases is empty. */
  lemma ObjBack<U(!new)>(h: Hooks<string, U>, classes: set<string>, o: Thing<U>, rest: string)
    requires Inverse(h) && Storable(classes, o)
    ensures ReadObj(h, classes, WriteObj(h, o) + rest) == Ok(o, rest) <==> "" !in o.aliases
  {
    var s2 := WriteObjRest(h, o) + rest;
    assert WriteObj(h, o) + rest == Str(o.cls) + (SizeT(o.id) + s2);
    StrBack(o.cls, SizeT(o.id) + s2);
    SizeBack(o.id, s2);
    ObjRestBack(h, o, rest);
  }
}
