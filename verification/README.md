# NetCosm, verified

A Dafny model of the parts of the NetCosm MUD server that are easiest to get wrong: its chained
hash table and multimap, the reference-counted objects that move between rooms and inventories,
the save files, the request protocol between the client processes and the master, and the text
layout on the way to a terminal.

Each part has a specification on values and, where the C code changes things in place, methods
and classes on the heap that are proved against it.

- **Hash table** (`HashSpec`, `HashLaws`, `HashCount`, `HashDrift`, `LoadFactor`, `HashMap`,
  `ObjectNames`). `HashMap` has the bucket array and the linked nodes of `src/hash.c`, relinked in
  place by a resize. Its value is a `Table`: the chains in bucket and link order and the two
  counters. Every run of operations refines a finite map. The counters stray from what they count
  by a known amount, which says exactly when the resize assertion fails. The load stays below three
  quarters after every insertion exactly when the first table size is a multiple of 4.
- **Multimap** (`MultimapSpec`, `Multimap`): linked lists in the hash table, on its contract alone.
- **Objects** (`Ownership`, `Stores`, `World`, `Requests`, `Aborts`, `UserDb`). The state of `World`
  is the objects not yet freed, the multimaps of all rooms and users, and the hash tables below
  them; it also keeps, for proofs only, the set of all entries and the references held elsewhere.
  Touching an object that is gone would violate a precondition, so the methods also show that no
  step does. World hooks are arbitrary predicates. A whole run of requests is proved against a
  function from one value of that state to the next. What a method does to lists and tables is
  a sequence of acts in `Stores`; `sane` in that state says whether the assertion of `src/hash.c`
  has held in all of them. A method that makes only a few insertions describes the state as it
  would be without the assertion; walks, requests and runs stop at a failure and say so (`ok`).
- **Save files** (`Bytes`, `Records`, `Containers`, `Files`, `WorldCodec`, `WorldFile`, `UserFile`,
  `Restart`, `Samples`): writers as the bytes they emit, readers as prefix parsers, and the loops of
  `src/world.c` and `src/userdb.c` against them. The world module's own hooks are pairs of
  functions of which the reader undoes the writer. `Samples` spells out the files of a small world.
- **Restarts** (`Pictures`, `Rereads`, `Sessions`): the state of `World` as the writers find it, what
  the readers' containers amount to as a state of `World`, the lists and hash tables after loading
  (a save writes a container in the order of its old table), and a run, a save, a load and a run.
- **Protocol** (`Protocol`, `Master`, `Client`): any number of children with first-in-first-out packet
  pipes and one master, over every run of connect, send, handle, emit, read, exit and reap events.
  A request is taken in hand in one event and its packets are written one by one in others, between
  which the children read and send.
- **Layout** (`Layout`): line wrapping, packet splitting, `strlcat` and `format_noun`.
- **Rooms** (`WorldInit`, `Presence`): name resolution, moves, who is listed where.

`Wrappers` has the optional value. `Guard` holds two always-true predicates. An invariant that is
stated "for every n with Opened(n)" is used by the verifier only in proofs that say
`assert Opened(0)`.

Properties that one might expect and that the code does not have are stated as they are:

- `ObjectNames.FitsWithoutLetters`: object tables hash with case and compare without, so a name
  hashes like every name that compares equal to it exactly if it has no letter.
  `ObjectNames.LowerCaseFits` is a fragment on which the two agree; `World` takes its keys from it.
- `HashDrift.DriftIsExact`: `used_buckets` and `n_entries` drift; the resize assertion holds
  exactly when no internal-node deletion is outstanding (modulo 2^64), and so does hash_size
  (`HashDrift.SizeIsCount`). The multimap deletes nodes that way: `Multimap.EmptiedKeyAborts` is a
  run on a table of eight that ends in the failed assertion, which the Makefile's flags leave in.
  `Aborts.ObjectTable` is that run on a room's object table, with its own hash and compare function
  and the names "a" to "g".
- `Requests.ThroughWhen`: a run of requests gets through exactly if none of its insertions makes a
  table grow while emptied keys have gone uncounted in it. `Aborts.SeventhObject` is a run of nine
  requests in a fresh room and inventory that ends the server: an object is made and taken, and of six
  more made there the last one fails.
- `LoadFactor.BoundIffMultipleOfFour`: with any other initial size some run of insertions reaches
  three quarters.
- `Requests.RefusedDrop`: a refused drop leaves two references and one entry, and when the user is
  removed the object stays for good, in no container. `Requests.Run` with `Requests.Tallied` says
  what every count is after every run; `Sessions.SaveAndLoad` that a restart clears such leaks.
- `World.AliasCloses`: room_obj_add_alias keeps the invariant exactly if the object is in that
  room, or is in no container and the room lists nothing under its name, or nothing was to be done.
  `Requests.SecondOfItsName` shows it fail: an unfiled object whose namesake is in the room is filed
  under its alias and not under its name.
- `World.World.Unfile`: unfiling never reads the object after it has been freed exactly if some
  reference to it is not that of an alias entry in the container.
- `Records.ObjBack`: an object comes back from its file exactly when no alias is empty.
- `Protocol.Attribution` with `Protocol.CleanHistory`: the REQ_ALLDONE that ends a wait is the
  waiting child's own exactly under a condition on both its pipes, on the request in the master's
  hand and on what other children's requests did meanwhile. `Protocol.EmptyPipeIsNotEnough` is a
  run in which the pipe from the master was empty and the reply still belonged to an earlier request,
  `Protocol.EmptyPipesAreNotEnough` one in which both were and the wait ended with a broadcast that
  was half written.
- `Layout.OutEnds`: line wrapping comes to an end exactly if `line_width` is 2 or more, or the text
  does not reach beyond the column or has only blanks there. `line_width` is a 16-bit sum, so
  `Layout.WidestTerminal`, of width 65535, is one that it never gets to the end in.
- `Layout.OutKeepsWidth`, `Layout.OutKeepsBuffer`: the column is carried over from one call to the
  next, and the terminal may have become narrower. Lines fit the width, and the line buffer, exactly
  if that column does or the text does not reach beyond it; `Layout.NarrowedTerminal` has neither.
- `Presence.Server.SetRoom` with `Presence.SecondPlacement`: setting the room of a child that is
  already placed keeps the user tables right exactly when the room is the same.

## Model

| member | source | states |
|---|---|---|
| ObjectNames.DjbSeparates | src/hash.c:52-63 | two names that differ in one byte never have the same 32-bit hash, whether char is signed or not |
| ObjectNames.FitsWithoutLetters | src/room.c:219 | all names that compare equal to a name have its hash if and only if it has no letter |
| ObjectNames.NotCompatible | src/userdb.c:211 | hash_djb and the case-insensitive compare do not meet the table's demand that equal keys hash equally |
| ObjectNames.LowerCaseFits | src/room.c:219 | on lower-case names they do: names compare equal only if identical |
| HashLaws.LookupIsGet | src/hash.c:272-292 | lookup answers exactly what the abstract map holds |
| HashLaws.ResizeRefines | src/hash.c:486-531 | relinking every node keeps the table well formed (each key at its hash modulo the size, none twice) and the map unchanged |
| HashLaws.UnlinkRefines | src/hash.c:307-346 | unlinking a node removes that key from the map and nothing else |
| HashLaws.StepRefines | src/hash.c:186-346 | each operation keeps the table well formed and does to the map what its name says |
| HashLaws.RunRefines | src/hash.c:186-531 | so does every run of insert, overwrite, remove, internal-node deletion and resize |
| HashLaws.InitIsEmpty | src/hash.c:76-91 | a new table is well formed and holds the empty map, also for size 0 |
| HashMap.HashMap.constructor | src/hash.c:76-91 | builds that table on the heap |
| HashMap.HashMap.Lookup | src/hash.c:272-292 | the heap walk finds what the value-level lookup finds |
| HashMap.HashMap.Resize | src/hash.c:486-531 | the in-place relinking yields the rehashed table with the same nodes, and reports the outcome of the closing assertion |
| HashMap.HashMap.RefileChain | src/hash.c:505-522 | relinking one old chain pushes its entries, in order, on the fronts of the new chains and counts them |
| HashMap.HashMap.InsertNew | src/hash.c:186-209 | links at the tail, or starts a chain and resizes at the load threshold |
| HashMap.HashMap.Insert | src/hash.c:245-270 | inserts a new key; an old key keeps its data, which is returned |
| HashMap.HashMap.Overwrite | src/hash.c:211-243 | replaces key and data of an old key in place, inserts a new one |
| HashMap.HashMap.Remove | src/hash.c:307-346 | unlinks the key's node, with the head-removal rule for `used_buckets` |
| HashMap.HashMap.GetInternalNode | src/hash.c:349-380 | exports the node of a key with its neighbours, or none |
| HashMap.HashMap.DelInternalNode | src/hash.c:382-408 | unlinks an exported node without touching `n_entries` |
| HashMap.Cursor.Next | src/hash.c:139-181 | resuming yields all entries once each, in bucket and link order, and then none |
| HashMap.Dup | src/hash.c:443-473 | the copy is what inserting the entries, with the callback's copies of their data, into an empty table of the same size gives, and its resizes never fail |
| HashDrift.DriftIsExact | src/hash.c:186-209 | over every run the counters differ from live nodes and used buckets by exactly the drift; the resize assertion holds if and only if the outstanding internal-node deletions are 0 modulo 2^64; a resize makes both counters exact |
| HashDrift.InsertCheckTracks | src/hash.c:201-205 | an insertion fails the assertion if and only if it resizes with such deletions outstanding |
| HashDrift.SizeIsCount | src/hash.c:431-441 | after every run the size reported is the number of keys if and only if those deletions are 0 modulo 2^64; without any, as in the tables of verbs and users whose size is saved, always |
| HashDrift.DupRefines | src/hash.c:443-473 | the copy of a well-formed table maps every key to the copy of its data and has exact counters, however far the original's had drifted |
| LoadFactor.FixedPoint | src/hash.c:201 | without overflow the shifted comparison is 4u >= 3s |
| LoadFactor.UsedIsResidues | src/hash.c:193-199 | used buckets are the distinct residues of the hashes modulo the size |
| LoadFactor.GrowsWhen | src/hash.c:195-206 | an insertion doubles the table exactly when it starts a bucket and reaches three quarters |
| LoadFactor.RunUnder | src/hash.c:186-270 | from a size that is a multiple of 4 every run of inserts and overwrites stays below three quarters after each call |
| LoadFactor.BoundIffMultipleOfFour | src/hash.c:186-209 | every run of insertions from s buckets keeps 4u < 3s if and only if s is a multiple of 4 |
| MultimapSpec.SurvivorsInOrder | src/multimap.c:200-228 | deletion keeps exactly the pairs whose value does not compare equal, in their order |
| MultimapSpec.DeleteCounts | src/multimap.c:221-223 | the total falls by the number of values freed |
| MultimapSpec.PairsUpdate | src/multimap.c:160-175 | the total over all keys moves with the length of the one list that changes |
| Multimap.ListNode.DeleteLoop | src/multimap.c:203-228 | the in-place loop leaves the survivors linked and frees the others in order |
| Multimap.Multimap.Lookup | src/multimap.c:116-138 | the linked list that holds exactly the key's pairs, and its stored length |
| Multimap.Multimap.Insert | src/multimap.c:140-184 | prepends to the key's list, tells whether the key is new, keeps both levels of counts; the table's assertion fails if and only if it grows with deletions of emptied keys outstanding |
| Multimap.Multimap.Delete | src/multimap.c:186-239 | removes the equal values, returns their number; exactly an emptied key leaves the table, whose entry counter then stays one too high |
| Multimap.Multimap.DeleteAll | src/multimap.c:241-263 | removes a key with its list, frees the list's values in order and returns their number |
| Multimap.EmptiedKeyAborts | src/hash.c:526 | in a table of eight: one key inserted and emptied, then six keys in different buckets; the sixth fails the assertion, the others do not |
| Aborts.ObjectTable | src/room.c:211-219 | the same on a room's object table as it is made, with hash_djb, the case-insensitive compare and one-letter names |
| Stores.DoSane | src/hash.c:195-206 | a multimap call on a container fails the assertion if and only if it files a new key, the table grows, and emptied keys are outstanding |
| Stores.DoAllTabled | src/multimap.c:140-239 | whatever is filed and unfiled, each table has exactly the keys of its container and its counters are off by its drift |
| Stores.LookupTabled | src/multimap.c:140-158 | so the table's lookup finds a key if and only if the container lists something under it |
| Stores.SaneWhen | src/hash.c:526 | a sequence of multimap calls gets through if and only if none of them does so in the state the earlier ones have led to |
| Stores.RefusedDrifts | src/server_reqs.c:480-490 | a refused drop of a thing that has no namesake in the room files and unfiles it there, so the room's table counts one entry too many from then on |
| Stores.NoCutNoTrip | src/hash.c:526 | from exact tables, and as long as nothing is unfiled, none does |
| Ownership.DeleteOne | src/obj.c:182-186 | deleting by id from a list takes out that object's one entry and nothing else |
| Ownership.AfterMiddle | src/server_reqs.c:394 | the saved next pointer of a walk is the next of the objects listed at the start |
| World.World.ObjDup | src/obj.c:144-149 | one reference more |
| World.World.ObjFree | src/obj.c:151-174 | one reference fewer; the last one takes the object away |
| World.World.BoxDelete | src/multimap.c:186-239 | with obj_free as callback: the entry goes and its reference is given back, or nothing happens |
| World.World.FileWithRef | src/room.c:93-112 | one entry under the name, for the caller's reference, and one under each alias with a reference of its own; true exactly if none of the keys was in the table; the lists and the table, in order, and whether its assertion holds |
| World.World.Unfile | src/room.c:177-191 | the object is read only while it is there if and only if some reference to it is not that of an alias entry here; then the entries it has there go, aliases before the name; true exactly if the name was there |
| World.World.FileCopy | src/userdb.c:281-295 | entries under all aliases and the name, each with a reference of its own; true exactly if the name was not in the table; the table's new state, and whether its assertion holds |
| World.World.Move | src/server_reqs.c:405-406 | filing in the inventory and unfiling from the room moves all entries and leaves the count as it was; both tables' new states, and whether the assertion holds |
| World.World.Take | src/server_reqs.c:386-421 | gets through exactly if the assertion holds in all its insertions; then it has visited each listed object once, in order, although the list shrinks, and exactly the accepted ones have moved, counts and the other containers unchanged; those left are in their order, those taken are at the front of the inventory's list, last first |
| World.World.Drop | src/server_reqs.c:459-499 | the same towards the room; refused objects stay with their owner, which turns their order round, and gain one reference nobody holds; the other containers are unchanged |
| World.World.DeleteByName | src/room.c:196-209 | every object of that name goes with all its entries; it survives only if a leaked reference is left |
| World.World.RemoveBox | src/userdb.c:34-44 | freeing an inventory gives back every entry's reference |
| World.World.ObjNew | src/obj.c:57-72 | the next id, one reference |
| World.World.Create | src/room.c:93-112 | a new object's creating reference becomes its entry; whether the assertion of the room's table holds |
| World.World.AddAlias | src/room.c:114-145 | for every object and room: files the object first if nothing of its name is there, turns down an alias it has, files a new one; the invariant holds afterwards if and only if the call fits; the table's new state, and whether its assertion holds |
| World.AliasCloses | src/room.c:116-142 | alias closure, single location and a reference for every entry survive if and only if the object is there, or is nowhere and nothing of its name is there, or its alias is not new |
| World.World.AddUser | src/userdb.c:209-215 | a new user gets an empty inventory, an old one keeps theirs |
| World.LocatedIn | src/room.c:93-145 | an object that is filed at all lies in one container, under exactly its keys, and its count is their number plus what is held elsewhere |
| Requests.Serve | src/server_reqs.c:386-499 | one request gets through exactly if the assertion holds in all its insertions; then it has kept closure, counts and numbering and led to exactly the objects, entries, lists and tables that Next says. Entry by entry: a take moves those of the objects listed under the name that the hook lets go and no others; a drop does so the other way, and what the hook holds back has a reference more; a deletion leaves no entry of an object listed there |
| Requests.TakeMeans | src/server_reqs.c:386-421 | the whole state after a take in terms of entries: of every object listed in the room under the name, all entries are in the inventory if the hook agrees and as before if not; without the room or the user, nothing changes |
| Requests.DropMeans | src/server_reqs.c:459-499 | the same for a drop, with one more reference to each object listed and refused |
| Requests.DeleteMeans | src/room.c:196-209 | after a deletion by name no entry of an object listed there is left; the object is gone if and only if it had no other reference, and else has fewer by its entries |
| Requests.RemoveUserMeans | src/userdb.c:185-193 | the inventory's entries go with it, and each object loses one reference for each of its entries there |
| Requests.FileMeans | src/room.c:93-112 | an object that is nowhere gets an entry under its name and each alias, and one reference more per alias; any other is left alone |
| Requests.AddAliasMeans | src/room.c:114-145 | which entries, aliases and references an alias request adds, in all cases, and when it is let alone |
| Requests.AfterOne | src/server_reqs.c:386-499 | each request of a run acts on the state that those before it have led to |
| Requests.Run | src/server_reqs.c:386-499 | any run gets through exactly if NextAll says so, and leads to exactly the state NextAll says, in which the invariant holds and every count is the object's entries plus the references it had outstanding plus what the run has added to them |
| Requests.ThroughWhen | src/hash.c:526 | from tables that fit their containers, a run gets through if and only if no insertion of any of its requests makes a table grow while emptied keys are outstanding there |
| Requests.NothingUnfiled | src/hash.c:526 | a run that makes, files and aliases objects and adds and removes users, but takes, drops and deletes none, gets through |
| Aborts.EmptiedRoom | src/hash.c:526 | in a fresh room: an object made and taken, then six made whose names hash to different buckets; the run gets through before the last and not with it, for all such names |
| Aborts.SeventhObject | src/hash.c:52-63 | the names "a" to "g" are such names under hash_djb, whether char is signed or not |
| Requests.Tallied | src/server_reqs.c:483-490 | what a run adds to an object's outstanding references: one for its creation and for each refused drop, less one when it is filed with its creating reference |
| Requests.MovesConserve | src/server_reqs.c:386-499 | takes and drops neither lose nor duplicate an object or an entry and leave names and aliases alone |
| Requests.RefusedDrop | src/server_reqs.c:483-490 | created, taken and refused: two references, one entry; without its owner it is left with one reference and no entry |
| Requests.SecondOfItsName | src/room.c:117-142 | an alias for a second, unfiled object of a name is filed without the name |
| UserDb.UserDb.Overwrite | src/hash.c:211-243 | on the user table: the old record's inventory loses one count and is freed only at 0 |
| UserDb.UserDb.Add | src/userdb.c:195-222 | an existing user keeps the inventory unchanged and nothing is freed; a new one gets an empty one |
| UserDb.UserDb.Remove | src/userdb.c:185-193 | the record goes and its inventory is freed, never for a second time |
| UserDb.UserDb.MultimapFree | src/multimap.c:102-114 | the count falls; at 0 the inventory is gone |
| UserDb.UserDb.AddMany | src/userdb.c:195-222 | any sequence of adds leaves every inventory that was there as it was |
| UserDb.RefsAreOwners | src/multimap.c:321-333 | at rest a count is the number of records that point to the inventory, and not 0 |
| Bytes.SizeBack | src/util.c:162-174 | a size reads back, with whatever follows it left over |
| Bytes.Uint32Back | src/util.c:134-146 | so does a 32-bit number |
| Bytes.RoomIdBack | src/util.c:83-101 | so does a room id, negative ones included |
| Bytes.BoolBack | src/util.c:120-132 | so does a truth value |
| Bytes.StrBack | src/util.c:88-118 | so does a string without NUL |
| Records.VerbBack | src/verb.c:52-66 | so does a verb of a known class |
| Records.AliasesBack | src/obj.c:85-126 | of an alias list the part before the first empty alias comes back |
| Records.ObjBack | src/obj.c:75-132 | an object comes back as it was if and only if it has no empty alias |
| Containers.CountNoAlias | src/obj.c:188-207 | the count is the number of objects that the writers' loops emit |
| Containers.CountIsDistinct | src/obj.c:188-207 | in an alias-closed container that is the number of distinct objects |
| Containers.Rebuilt | src/world.c:272-277 | filing the objects of an alias-closed container afresh restores its keys and, under each, the same objects |
| Files.Output.Write | src/util.c:88-93 | writing overwrites what the file held and leaves the rest |
| Files.Input.GetObj | src/obj.c:97-132 | reads an object and moves the id counter by one, although the id is then overwritten |
| Files.Input.GetAliases | src/obj.c:110-126 | the alias loop reads up to the first empty string |
| WorldCodec.RoomBack | src/world.c:257-291 | a room's record reads back, with whatever follows it left over |
| WorldCodec.WorldBack | src/world.c:215-313 | the whole record reads back from a file with anything behind it |
| WorldFile.SaveThings | src/world.c:104-127 | the count written is the number of object records that follow |
| WorldFile.Save | src/world.c:61-165 | the loops write the world's record over the start of the old file and leave the rest of it |
| WorldFile.FileThing | src/room.c:93-112 | files an object that has been read under its name and each alias, with a reference per key |
| WorldFile.LoadThings | src/world.c:268-277 | reads and files as many objects as announced, and counts their references |
| WorldFile.LoadVerbs | src/world.c:279-287 | of verbs that can be written, it reads the whole table if no two have the same name, and fails if two have |
| WorldFile.VerbTableHolds | src/world.c:279-287 | that table has each verb under its name |
| WorldFile.LoadWorld | src/world.c:215-313 | loads, declines or aborts as the format says; the id counter ends up as the saved one. A file too short for the magic number, or with another one, is corrupt; a file of another number of rooms or another name is declined, whatever follows; a file that was saved is loaded if and only if both are the module's own |
| WorldFile.LoadedWhen | src/world.c:237-243 | the same as a property of the format, with anything behind the saved bytes |
| WorldFile.Reload | src/world.c:61-313 | loading what was saved, with leftover bytes behind it, gives the same rooms, exits, verbs, counter and names, and per room the same objects under every name and alias |
| UserFile.Save | src/userdb.c:116-178 | the loops write every user's record |
| UserFile.Init | src/userdb.c:52-114 | a file without the magic number is not read; of one that announces n users and holds them, or is cut off within the fixed part of a record, it reads all that are there in full, keeps the first of those of one name and nothing else, and moves the id counter by one per object |
| UserFile.Reload | src/userdb.c:52-178 | every user comes back with all fields but the addresses, and the inventory up to list order |
| Samples.LeAt | src/util.c:134-174 | numbers are written lowest byte first |
| Samples.Lamp | src/obj.c:75-95 | an object's record, piece by piece |
| Samples.HallIs | src/world.c:89-147 | a room's record, piece by piece |
| Samples.WorldIs | src/world.c:61-164 | the world file, piece by piece |
| Samples.UserIs | src/userdb.c:116-178 | the user file, piece by piece |
| Restart.Restore | src/server.c:51-64 | after loading a world and its users from one save, objects are where they were, ids are distinct and below the counter, which has moved by the objects in inventories |
| Pictures.ViewClosed | src/world.c:104-127 | a container of a consistent state, read in any order of its keys, is an alias-closed one that the file can carry |
| Pictures.PictureNumbered | src/world.c:149 | what a save writes of a consistent state has distinct ids below the counter, each object in one place |
| Pictures.StockLists | src/world.c:272-277 | the loaded container has the saved one's keys and, under each, the same objects |
| Pictures.RestartedConsistent | src/userdb.c:92-103 | the state with exactly the filed objects, a reference per entry and none besides is consistent |
| Rereads.TableOrderIs | src/hash.c:139-181 | the order in which a container's table is iterated meets each of its keys once |
| Rereads.PrimariesIn | src/world.c:104-127 | what a save writes of a container: for the keys in that order, the objects listed under their own name, in the order of the list |
| Rereads.LoadedIndex | src/userdb.c:84-104 | filing what has been read fails no assertion and leaves a table that has the container's keys and no deletion uncounted |
| Sessions.StockThing | src/userdb.c:94-102 | the count taken while loading is the number of the object's entries in the whole state |
| Sessions.Resume | src/world.c:268-277 | the loaded containers as a state meet the invariant of every run, with no reference outstanding; their lists and tables are those that the order of the old tables gives |
| Sessions.SaveAndLoad | src/server.c:51-64 | saving a state of the invariant and loading both files gives the same entries, the filed objects with exact counts, no leaked reference, and tables with exact counters |
| Sessions.Session | src/server.c:51-64 | a run, a save, a load and a run get through exactly if both runs do, the second from the tables as loaded, and lead to exactly what the second run makes of the restarted outcome of the first |
| Protocol.WrittenBatches | src/server_reqs.c:632-720 | what one request writes to one child is whole batches: any packets, then one REQ_ALLDONE or kick |
| Protocol.RunInv | src/server_reqs.c:632-720 | the invariant holds after every run |
| Protocol.Batched | src/client_reqs.c:151-201 | in every reachable state, also between two packets of a request, what a child has read, its pipe and what is due make up whole batches in this order, and a waiting child has something to read, something due or a request to be handled |
| Protocol.EmittedWhole | src/server_reqs.c:632-720 | in whatever order the packets of a request are written, in the end each child's pipe has grown by what Written says |
| Protocol.WaitEnds | src/client_reqs.c:190-198 | one batch, once written, ends the wait, or the child |
| Protocol.Attribution | src/client_reqs.c:123-125 | the REQ_ALLDONE that ends a wait answers the latest request if and only if the child is marked clean |
| Protocol.CleanHistory | src/client_reqs.c:151-201 | the mark says: sent with both pipes empty and no packet due, and no other child's request wrote to this child before the answer |
| Protocol.EmptyPipeIsNotEnough | src/client_reqs.c:168-198 | a run in which the pipe was empty at send time and the reply is to an earlier request |
| Protocol.EmptyPipesAreNotEnough | src/server_reqs.c:34-62 | a run in which both pipes were empty at send time, between two packets of a broadcast, and the end of that is taken for the reply |
| Protocol.StepIs | src/client_reqs.c:151-201 | when each event is enabled and what it does to the child it is about: pipes, the request in hand, waiting, life and death |
| Protocol.WrittenIs | src/server_reqs.c:571-590 | request by request, the packets each child gets: the answer, the message with its end, the kick |
| Master.Master.HandleChild | src/server_reqs.c:88-165 | what the handlers write for one child, the extra REQ_ALLDONE of a broadcast included; REQ_KICK to the target or to any other child |
| Master.Master.HandleChildReq | src/server_reqs.c:632-720 | the loop over the children, in any order, writes to each what Protocol says; data from an unknown process writes nothing. By pipes: KickAll adds one kick to every other pipe and a REQ_ALLDONE to the sender's; a kick adds one to its target's and word of it, if there is such a child, and a REQ_ALLDONE to the sender's; a broadcast adds its parts and a REQ_ALLDONE to every pipe; an answer goes to the sender alone |
| Client.PollAllIs | src/client_reqs.c:34-134 | how far one poll reads, waiting or not: texts, and one REQ_ALLDONE or kick at most, after which it stops; what that does to the child |
| Client.PollAllWaiting | src/client_reqs.c:198 | while a request is open one call of poll_requests reads as far as the whole wait does, and completes the request exactly if the child lives on and waits no longer |
| Client.Client.PollRequests | src/client_reqs.c:34-134 | the loop reads up to the next REQ_ALLDONE or kick or the end of the pipe, and tells whether it read anything and whether a request was done; the child lives on unless the last packet was a kick |
| Client.Client.Post | src/client_reqs.c:168-189 | sending is the send event of the protocol |
| Client.Client.Await | src/client_reqs.c:190-198 | however the packets come in, the polling loop ends with the first batch and as if all had been there: the request is complete, or the client is gone |
| Layout.Terminal.Out | src/client.c:67-123 | goes through exactly the rounds of the loop to its end, for every width and column with which the loop has one and stays within its buffer; breaks the text at newlines, else at the last blank that fits, else where the line is full; what is left fits a line and sets the column |
| Layout.WrapsFirst | src/client.c:86-121 | where a line ends: at the first newline that comes no later than the line is full, else at the last blank before that, else where it is full; the newline goes, and so do the blanks that follow |
| Layout.WrapsKeepsWidth | src/client.c:94-102 | every ended line has at most width characters before CR LF if and only if the first one starts within the width, or none is ended |
| Layout.WrapsKeepsInk | src/client.c:86-121 | the visible characters come out in order, none lost or repeated |
| Layout.OutEnds | src/client.c:83-120 | the loop ends if and only if the 16-bit width + 1 is at least 2, or the text does not reach beyond the column, or is blank from there |
| Layout.OutKeepsWidth | src/client.c:81-102 | every ended line fits the width if and only if the column carried over does, or the text does not reach beyond it |
| Layout.OutKeepsBuffer | src/client.c:84-102 | every line and its CR LF fit line_buf if and only if that column is at most width + 1, or the text does not reach beyond it |
| Layout.WidestTerminal | src/telnet.c:86 | with the width 65535, which a client may send, the loop never ends on one letter |
| Layout.NarrowedTerminal | src/client.c:81-84 | from column 60 in a terminal that has become 40 wide, a longer text fits neither the width nor line_buf |
| Layout.SendPacket | src/server_reqs.c:34-62 | packets have at most MSG_MAX bytes, their payloads make up the message, no piece is split again, and an over-long message of another kind is refused |
| Layout.Strlcat | src/util.c:232-258 | appends what fits, with a NUL, touches no byte before or after, returns the length tried for |
| Layout.FormatNoun | src/util.c:260-293 | the buffer holds the phrase, cut only where the buffer is full: one object with its article, "an" exactly before one of aeiouAEIOU, or with its first letter in upper case; any other count as its decimal digits, the name and "s" |
| Layout.DigitsValue | src/util.c:284-286 | the count is printed as its decimal digits, without leading zero |
| WorldInit.SecondPass | src/world.c:358-375 | fills in one room's exits, and fails exactly on an unknown name |
| WorldInit.Init | src/world.c:319-375 | every exit is the room of that name, whatever the order of the rooms; duplicate and unknown names are reported, exactly |
| WorldInit.WalkStaysInside | src/server_reqs.c:257-290 | every run of moves stays in the world; a step leads to the room named in that direction exactly if there is one and both hooks agree, and without an exit or with a refusal leads nowhere |
| Presence.PresentMeans | src/room.c:30-63 | a name is in a room's table if and only if a live child of that name has been placed there |
| Presence.SecondPlacement | src/server_reqs.c:243-247 | setting the room of a placed child keeps that true if and only if the room is the same |
| Presence.Server.Connect | src/server.c:304-397 | a new nameless child; the counter follows the table |
| Presence.Server.SetRoom | src/server_reqs.c:243-247 | places any child; the tables are right afterwards if and only if it had not been placed, or in that room |
| Presence.Server.MoveRoom | src/server_reqs.c:282-284 | takes the child out of the old table and puts it into the new one |
| Presence.Server.HandleDisconnects | src/server.c:84-103 | the ended children leave their rooms, the table and the counter |
| Presence.AfterMeans | src/server.c:84-397 | which child an event changes, and in what |
| Presence.Run | src/server.c:84-397 | over every legal run num_clients is the size of the child table, and the user tables list exactly the placed children |

## Left out

- HashSpec: hashes and table sizes are unbounded; bucket numbers wrap at 32 bits only for tables larger than that. The two counters are kept as integers and read modulo 2^64.
- HashMap: stored data is never NULL, which hash_iterate takes for the end; key and data callbacks are modelled where an inventory or an object needs them; hash_free and the debug dump are not.
- HashMap.Dup: hash_dup's copying of the saved callbacks is not modelled.
- Multimap: multimap_iterate is the table's iterator; multimap_copy and its helper, which links the original cells, are not modelled.
- Ownership: the containers are values with the multimap's contract, not the heap lists of Multimap, and their tables are values of HashSpec; keys are compared by plain equality, on names where hash and compare agree.
- World.World.Unfile: what the source does after it has read a freed object is left open.
- Requests.Serve: a request about a room, user or object that does not exist is ignored, as is filing an object that is in a container and an alias that does not fit; in the source such calls do not arise from a child, and what the last one does is World.World.AddAlias. The order within a list is in World.World.Take and its like, not in the state of a run. Object hooks neither edit containers nor keep references.
- UserDb: a duplicate name in a user file, whose second record the source leaks, is only modelled as a table (UserFile.Init).
- Bytes: an x86-64 layout; a short read of a room id or of the world size, which the source does not notice, counts as a corrupt file.
- WorldFile.LoadWorld: starts from an empty global verb table; static room data that the file does not hold is not part of the model.
- WorldFile.Reload: requires counts below 2^32, since the loops count in 32 bits, and strings without NUL.
- Files.Input.GetObj: what an id counter that runs out of 64 bits does is left open.
- Sessions.Session: what the objects are like beyond names and counts, the rooms' texts, exits and verbs and the users' records are parameters, which must be writable; so must the names in use, in lower case, and the id counter must not run out. The files are those of a run that has got through.
- Protocol: the packets that one request writes to different children are written in any order, not only the master's; the rate limit, which sends nothing, is no event; reply contents are not modelled.
- Client.Client.Await: the data that replies carry is not modelled, nor is a master that ends during the wait.
- Master.Master.HandleChildReq: unknown and malformed requests are Quiet.
- Layout.Terminal.Out: requires the conditions of Layout.OutEnds and Layout.OutKeepsBuffer, without which the source loops for good or writes beyond its line buffer. The formatting itself is a parameter.
- Layout.FormatNoun: requires a name for a single object without article; with an empty one the source copies from behind the NUL (src/util.c:279), wherever that leads. snprintf of the count is Digits.
- WorldInit: hooks and the warning about one-way exits; a direction outside the twelve, which the source does not check.
- Presence: room_user_teleport, which leaves the child's room number behind, a second login on one connection, and enter and leave hooks.
- Telnet, authentication, sockets, signals, process creation, the world modules and the other client commands are not part of this model.
