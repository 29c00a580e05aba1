/** The save files of a small world, piece by piece: the order of the parts in the formats of
    src/world.c, src/obj.c, src/verb.c and src/userdb.c, and the bytes of a number. */
module Samples {
  import opened Bytes
  import opened Records
  import WC = WorldCodec
  import UF = UserFile
  import C = Containers

  /** Every number is written lowest byte first. */
  lemma {:induction false} LeAt(n: int, k: nat, i: nat)
    requires i < k
    ensures Le(n, k)[i] as int == n / Pow256(i) % 256
    decreases i
  {
    if i > 0 {
      LeAt(n / 256, k - 1, i - 1);
      Quotients(n, 256, Pow256(i - 1));
    }
  }

  lemma Quotients(n: int, a: int, b: int)
    requires a > 0 && b > 0
    ensures n / a / b == n / (a * b)
  {
    var q, r := n / a, n % a;
    var q', r' := q / b, q % b;
    assert n == a * (b * q' + r') + r == (a * b) * q' + (a * r' + r) by {
      Distributes(a, b, q', r');
    }
    assert 0 <= a * r' + r < a * b by { Within(a, b, r', r); }
    Divided(n, a * b, q', a * r' + r);
  }

  lemma Distributes(a: int, b: int, q: int, r: int)
    ensures a * (b * q + r) == (a * b) * q + a * r
  {
    assert a * (b * q) == (a * b) * q;
  }

  lemma Within(a: int, b: int, r': int, r: int)
    requires 0 <= r < a && 0 <= r' < b
    ensures 0 <= a * r' + r < a * b
  {
    assert a * r' <= a * (b - 1);
  }

  lemma Divided(n: int, d: int, q: int, r: int)
    requires d > 0 && n == d * q + r && 0 <= r < d
    ensures n / d == q
  {
    var k := n / d - q;
    assert d * k == r - n % d;
    Multiple(d, k);
  }

  lemma Multiple(d: int, k: int)
    requires d > 0
    ensures (k >= 1 ==> d * k >= d) && (k <= -1 ==> d * k <= -d)
  {
  }

  /** A string is its length and its characters; sizes have 8 bytes, numbers and room ids 4, truth values 1. */
  lemma Primitives(s: string)
    ensures Str(s)[..8] == SizeT(|s|) && Str(s)[8..] == s
    ensures SizeT(|s|) == Le(|s|, 8) && Uint32(|s|) == Le(|s|, 4) && RoomId(-1) == Le(-1, 4)
    ensures Bool(false) == [0 as char] && Bool(true) == [1 as char]
  {
  }

  lemma {:induction false} OneWritten<T>(i: int, x: T, write: (int, T) -> string)
    ensures WriteMany(i, [x], write) == write(i, x)
  {
    assert [x][1..] == [] && WriteMany(i + 1, [], write) == "";
    assert write(i, x) + "" == write(i, x);
  }

  lemma Lamp<U>(h: Hooks<string, U>, user: U)
    ensures WriteObj(h, Thing("thing", 7, "lamp", false, true, ["light"], user))
         == Str("thing") + (SizeT(7) + (Str("lamp") + (Bool(false) + (Bool(true) + ((Str("light") + Str("")) + h.write("thing", user))))))
  {
    assert ["light"][1..] == [];
  }

  function Hall<U, R>(user: U, data: R): WC.RoomRecord<U, R> {
    WC.RoomRecord(0, "Hall", "A hall.", [-1, 1], [Thing("thing", 7, "lamp", false, true, ["light"], user)], [Verb("look", "look")], data)
  }

  /** A room: its number, name, description and exits, its objects, its verbs, and what its hook saves. */
  lemma HallIs<U, R>(m: WC.Module<U, R>, user: U, data: R)
    ensures WC.WriteRoom(m, 0, Hall(user, data))
         == (RoomId(0) + (Str("Hall") + (Str("A hall.") + (RoomId(-1) + RoomId(1)))))
            + ((SizeT(1) + WriteObj(m.objHooks, Hall(user, data).things[0]))
               + ((SizeT(1) + (Str("look") + Str("look"))) + m.roomHooks.write(0, data)))
  {
    var r := Hall(user, data);
    OneWritten(0, r.things[0], WC.ThingWriter(m.objHooks));
    OneWritten(0, r.verbs[0], WC.VerbWriter());
    assert [-1, 1][1..] == [1];
    OneWritten(1, 1, WC.ExitWriter());
  }

  /** A world: the magic number, the number of rooms, its name, its verbs, the rooms, the id counter and
      the names of the rooms. */
  lemma WorldIs<U, R>(m: WC.Module<U, R>, user: U, data: R)
    ensures WC.WriteWorld(m, WC.WorldRecord("house", [Verb("quit", "q")], [Hall(user, data)], 9, [("hall", 0)]))
         == Le(0x3141_5926, 4) + (SizeT(1) + (Str("house") + ((SizeT(1) + (Str("quit") + Str("q")))
            + (WC.WriteRoom(m, 0, Hall(user, data)) + (SizeT(9) + (Str("hall") + RoomId(0)))))))
  {
    OneWritten(0, Verb("quit", "q"), WC.VerbWriter());
    OneWritten(0, Hall(user, data), WC.RoomWriter(m));
    OneWritten(0, ("hall", 0), WC.NameWriter());
  }

  /** A user file: the magic number, the number of users, and of each the record as it lies in memory,
      the objects of the inventory under their own names, and what the world's hook saves. */
  lemma UserIs<U, D>(m: UF.Module<U, D>, u: UF.User<U, D>, o: Thing<U>)
    requires u.bins == [C.Bin("light", [o]), C.Bin("lamp", [o])] && o.name == "lamp"
    ensures UF.WriteUsers(m, [u])
         == Le(0x2718_2818, 4) + (SizeT(1) + (u.fields + (u.addresses + ((SizeT(1) + WriteObj(m.objHooks, o)) + m.userHooks.write((), u.data)))))
  {
    assert u.bins[1..] == [u.bins[1]] && u.bins[1..][1..] == [];
    assert |"light"| != |"lamp"| && [o][1..] == [];
    assert C.Named("light", [o]) == [];
    assert C.Named("lamp", [o]) == [o] + C.Named("lamp", [o][1..]);
    assert C.Primaries(u.bins[1..]) == [o];
    assert C.Primaries(u.bins) == [o];
    OneWritten(0, u, UF.UserWriter(m));
    OneWritten(0, o, WC.ThingWriter(m.objHooks));
  }
}
