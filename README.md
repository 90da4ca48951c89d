# dsnp-fraig core in Dafny

This project models the core of an and-inverter graph (AIG) manager. The manager does the following:
- reads a circuit in the ASCII AIGER (`aag`) format;
- keeps its gates in an id-indexed table with fanin and fanout edges;
- computes the depth-first order from the primary outputs;
- reports floating and unused gates;
- writes the circuit back as `aag`;
- sweeps unreachable gates;
- simplifies trivial AND gates;
- merges structurally equal AND gates (strash);
- simulates the circuit bit-parallel to split functionally-equivalent-candidate (FEC) groups.

It also models the chained hash map, hash set and cache those passes use.

Modules, following the source files:

| module | models |
|---|---|
| `Buckets`, `HashMapModel`, `HashSetModel` | `myHashMap.h`, `myHashSet.h`: bucket arrays and iterators, the map, the cache, the set. |
| `CirDef` | `cirDef.h`: gate types and the `TwoFanins` key (equality and hash). |
| `CirGate` | `cirGate.h` / `cirGate.cpp`, per gate. |
| `CirGraph` | the gate table `gateMap` as a value (`seq<Option<Gate>>`); the fanin/fanout mirror invariant; the edge rewrites. |
| `CirManager.CirMgr` | `CirMgr` as a class with fields `PIs`, `POs`, `AIGs`, `UNDEFs`, `gateMap`, `dfsList`, `fecGrps`, plus per-gate `marks` (the `_ref` visit stamps) and `values` (simulation words). It holds the DFS, the writer, fanout sorting and gate replacement. |
| `CirAag`, `CirParse`, `CirRead` | the `aag` text, the line-by-line validation of `readCircuit`, and the building of the table. |
| `CirReport` | `printFloatGates`. |
| `CirOpt` | `cirOpt.cpp`: sweep, optimize, updateGateLists. |
| `CirFraig` | `cirFraig.cpp`: strash. |
| `FecGroups`, `CirSim` | `cirSim.cpp`: simulation, seeding and refinement of FEC groups. |

A pointer with its low bit as inversion flag becomes `Ref(id, inv)`; a gate object becomes a `Gate` value held in `gateMap[id]`. `CirGraph.Mirror` states that every fanin edge appears once more as a fanout edge of the producer, with the same polarity and multiplicity. `CirManager.CirMgr.Valid` bundles `Mirror`, ids matching slots, the gate lists matching the table, and the visit-stamp epoch. Every pass that changes the table is proved to keep `Valid`.

Where the header and the implementation disagree, the model follows the `.cpp` files:
- `cirGate.h` declares `trivialOpt(GateList&)`, while `cirOpt.cpp` defines `trivialOpt(GateList&, CirGate*)`;
- `cirGate.h` declares no `getFloatingFanin` or `simulate`;
- `cirMgr.h` types `fecGrps` as `vector<FECGroup*>`, while `cirSim.cpp` stores groups by value.

## Model

| member | source | states |
|---|---|---|
| Buckets.Begin | src/util/myHashMap.h:113-118 | the first iterator is at index 0 of the flattened buckets, on an element or at the end |
| Buckets.Next | src/util/myHashMap.h:63-71 | `++` on an element moves to the next flattened index, which is an element or the end |
| Buckets.Prev | src/util/myHashMap.h:73-83 | `--` from an element or the end, past index 0, lands on the element one index earlier |
| Buckets.Elements | src/util/myHashMap.h:113-120 | iterating from `begin()` to `end()` yields exactly the flattened bucket contents, in bucket order |
| Buckets.SwapWithLast | src/util/myHashMap.h:177-178 | overwriting entry j with the last entry and popping keeps every other entry and moves the last one into slot j |
| Buckets.SwapWithLastDrops | src/util/myHashMap.h:173-182 | as a multiset, the bucket loses exactly the removed entry |
| Buckets.StoredInOwnBucket | src/util/myHashMap.h:133-138 | with entries placed by `k() % numBuckets`, a key is stored iff its own bucket holds an equal key |
| Buckets.WalkDistinct | src/util/myHashMap.h:113-120 | with entries placed by `k() % numBuckets` and no bucket holding two equal keys, no two positions of the iteration order hold equal keys |
| Buckets.OnlyMatch | src/util/myHashMap.h:143-148 | with distinct keys, the first equal key found in the bucket is the only equal entry in the table |
| Buckets.ReplaceKeeps | src/util/myHashMap.h:153-156 | overwriting an entry with an equal key keeps placement and distinctness |
| Buckets.AppendKeeps | src/util/myHashMap.h:163-168 | appending an absent key to its own bucket keeps placement and distinctness |
| Buckets.RemoveKeeps | src/util/myHashMap.h:173-180 | swap-with-last removal keeps placement and distinctness and leaves the key absent |
| HashMapModel.HashMap.constructor | src/util/myHashMap.h:42 | a map with `b` empty buckets and no entries |
| HashMapModel.HashMap.Init | src/util/myHashMap.h:96-97 | a fresh array of `b` empty buckets |
| HashMapModel.HashMap.Reset | src/util/myHashMap.h:98-101 | zero buckets, no entries |
| HashMapModel.HashMap.Clear | src/util/myHashMap.h:102-104 | every bucket emptied; the bucket count is kept |
| HashMapModel.HashMap.Size | src/util/myHashMap.h:124-128 | the result is the number of entries over all buckets |
| HashMapModel.HashMap.Empty | src/util/myHashMap.h:122 | true iff there are no entries |
| HashMapModel.HashMap.Check | src/util/myHashMap.h:133-138 | true iff an entry with an equal key is stored |
| HashMapModel.HashMap.Query | src/util/myHashMap.h:143-148 | found iff the key is stored; on a hit the data is the one the key maps to; on a miss `d` is untouched |
| HashMapModel.HashMap.Update | src/util/myHashMap.h:153-159 | reports whether the key was stored; overwrites that entry's data in place or appends a new entry to the key's bucket; afterwards the key maps to `d`, and entries of other keys are unchanged |
| HashMapModel.HashMap.Insert | src/util/myHashMap.h:163-169 | succeeds iff the key was absent; the entries then grow by exactly `(k, d)`, otherwise nothing changes |
| HashMapModel.HashMap.Remove | src/util/myHashMap.h:173-182 | succeeds iff the key was stored; the key is then absent and one entry fewer is stored, otherwise nothing changes |
| HashMapModel.HashMap.MapsToUnique | src/util/myHashMap.h:143-148 | a key maps to at most one datum |
| HashMapModel.Cache.constructor | src/util/myHashMap.h:219-220 | a cache with `s` slots |
| HashMapModel.Cache.Init | src/util/myHashMap.h:228 | a fresh cache of `s` slots |
| HashMapModel.Cache.Reset | src/util/myHashMap.h:229 | size 0 |
| HashMapModel.Cache.Read | src/util/myHashMap.h:237-244 | a hit iff slot `k() % size` holds an equal key; the cached datum on a hit, `d` otherwise |
| HashMapModel.Cache.Write | src/util/myHashMap.h:246-250 | slot `k() % size` is overwritten by `(k, d)`; afterwards `k` reads `d`, and other keys of that slot miss |
| HashSetModel.HashSet.constructor | src/util/myHashSet.h:34 | an empty set with `b` buckets |
| HashSetModel.HashSet.Init | src/util/myHashSet.h:89 | a fresh array of `b` empty buckets |
| HashSetModel.HashSet.Reset | src/util/myHashSet.h:90-93 | zero buckets, no elements |
| HashSetModel.HashSet.Clear | src/util/myHashSet.h:94-96 | every bucket emptied |
| HashSetModel.HashSet.Size | src/util/myHashSet.h:116-120 | the number of elements |
| HashSetModel.HashSet.Empty | src/util/myHashSet.h:114 | true iff there are no elements |
| HashSetModel.HashSet.Check | src/util/myHashSet.h:125-130 | true iff an equal element is stored |
| HashSetModel.HashSet.Query | src/util/myHashSet.h:135-140 | found iff stored; on a hit `d` becomes the unique stored element equal to it; on a miss it is untouched |
| HashSetModel.HashSet.Update | src/util/myHashSet.h:145-151 | reports whether an equal element was stored; replaces it or appends `d`; afterwards `d` is the only element equal to itself |
| HashSetModel.HashSet.Insert | src/util/myHashSet.h:155-161 | succeeds iff no equal element was stored; the elements then grow by exactly `d` |
| HashSetModel.HashSet.Remove | src/util/myHashSet.h:165-174 | succeeds iff an equal element was stored; it is then absent and one element fewer is stored |
| HashSetModel.HashSet.NoTwoEqual | src/util/myHashSet.h:155-161 | no two distinct stored elements are equal |
| CirDef.CodeInjective | src/cir/cirDef.h:26-35 | the five gate types have distinct codes |
| CirDef.EqualIff | src/cir/cirDef.h:42-50 | two fanin pairs are equal iff they hold the same literals in the same or in swapped order |
| CirDef.EqualSwap | src/cir/cirDef.h:42-50 | `TwoFanins(a, b) == TwoFanins(b, a)` |
| CirDef.EqualIsEquivalence | src/cir/cirDef.h:42-50 | equality of fanin pairs is reflexive, symmetric and transitive |
| CirDef.LiteralParts | src/cir/cirDef.h:43-48 | comparing `/ 2` and `% 2` of two literals compares the literals |
| CirDef.Hash | src/cir/cirDef.h:51-55 | the hash is a 64-bit value |
| CirDef.HashSwap | src/cir/cirDef.h:51-55 | the hash does not depend on the order of the fanins |
| CirDef.KeyContractHolds | src/cir/cirDef.h:42-55 | equal keys hash alike and equality is an equivalence, so `TwoFanins` is a valid hash key |
| CirGate.Lit | src/cir/cirGate.h:92-93 | `unmask` of the literal is the gate id and `isInverting` is the polarity |
| CirGate.RefOf | src/cir/cirGate.h:92-93 | reading a literal back as a reference round-trips with `Lit` |
| CirGate.LitInjective | src/cir/cirGate.h:92-93 | distinct references have distinct literals |
| CirGate.Negate | src/cir/cirGate.h:93 | the same gate with the other polarity |
| CirGate.TypeOf | src/cir/cirGate.h:99-173 | each gate class has its own type: AIG, PO, UNDEF and PI each iff the gate is of that kind |
| CirGate.TypeStr | src/cir/cirGate.h:35-44 | every type has a non-empty name |
| CirGate.TypeStrInjective | src/cir/cirGate.h:35-44 | distinct types have distinct names, so comparing `getTypeStr()` compares types |
| CirGate.Fanins | src/cir/cirGate.h:117-119 | an AND gate has two fanins, a PO one, the other kinds none |
| CirGate.FaninIds | src/cir/cirGate.h:117-119 | exactly the ids of the gate's fanins |
| CirGate.GetFaninLit | src/cir/cirGate.cpp:200-206 | an AND gate's literal of fanin 1 or 2; a PO's fanin literal (cirGate.h:138); 0 otherwise (cirGate.h:48) |
| CirGate.GetFanins | src/cir/cirGate.h:50 | an AND gate's two fanin literals (cirGate.h:105); `TwoFanins(0, 0)` for any other gate |
| CirGate.GetFaninsEqual | src/cir/cirGate.h:105 | two AND gates have equal keys iff they read the same two references in either order |
| CirGate.DefinedNotUsedIff | src/cir/cirGate.h:64 | `definedNotUsed` holds iff the gate is an AND gate or PI with no fanouts (cirGate.h:112, 129) |
| CirGate.SetFanout | src/cir/cirGate.cpp:82-89 | a PO refuses (cirGate.h:147); any other gate appends the reference as its last fanout and changes nothing else |
| CirGate.SetFanin | src/cir/cirGate.cpp:215-224 | an AND gate sets fanin 1 or 2 and refuses other numbers; a PO always sets its fanin (cirGate.cpp:343-350); PI, UNDEF and CONST refuse (cirGate.h:130, 162, 172) |
| CirGate.Redirect | src/cir/cirGate.cpp:230-231 | a fanin on the old gate moves to the new gate, with the polarities combined by exclusive or; other fanins stay |
| CirGate.NewFanin | src/cir/cirGate.cpp:226-232 | an AND gate redirects each fanin that reads the old gate; a PO takes the new gate (cirGate.h:148); other kinds do nothing |
| CirGate.WithoutCounts | src/cir/cirGate.cpp:119-129 | removing the fanouts on gate t drops every copy of them and keeps every other fanout with its multiplicity |
| CirGate.RemoveFanout | src/cir/cirGate.cpp:119-129 | the loop leaves the gate with exactly its fanouts `Without` t, in order |
| CirGate.SortFanouts | src/cir/cirGate.h:76 | the fanouts sorted by gate id, a permutation of the old ones (`compareByID`, cirGate.h:85-86) |
| CirGraph.FaninListed | src/cir/cirGate.cpp:82-89 | in a mirrored table, each fanin edge is listed as a fanout of a live producer |
| CirGraph.FanoutListed | src/cir/cirGate.cpp:82-89 | in a mirrored table, each fanout edge points to a live consumer that reads the producer |
| CirGraph.StripKinds | src/cir/cirGate.cpp:234-239 | `rmRelatingFanouts` changes no gate's liveness and no gate's fanins |
| CirGraph.ReplacedIns | src/cir/cirFraig.cpp:63-73 | after replacing g by n, every other gate's fanins are redirected from g to n |
| CirGraph.ReplacedOuts | src/cir/cirFraig.cpp:63-73 | after replacing g by n, every other gate's fanouts lose g, and n gains g's consumers |
| CirGraph.ReplacedMirror | src/cir/cirFraig.cpp:63-73 | replacing a gate by another keeps fanins and fanouts mirrored |
| CirGraph.WithoutTwice | src/cir/cirGate.cpp:119-129 | removing the fanouts on a gate twice is removing them once |
| CirManager.MirrorFaninsLive | src/cir/cirMgr.cpp:464-507 | in a mirrored table every fanin reads a live gate |
| CirManager.CirMgr.GetGate | src/cir/cirMgr.h:33-36 | a gate iff the id is in range and its slot is filled, and then that slot's gate |
| CirManager.CirMgr.GetGateId | src/cir/cirMgr.h:33-36 | the gate found at id carries that id |
| CirManager.CirMgr.ResetGlobalRef | src/cir/cirGate.h:74 | the epoch advances by one and no gate counts as visited |
| CirManager.CirMgr.Visit | src/cir/cirGate.h:95-96 | the gate is stamped with the current epoch and leaves the pending set; no other stamp changes |
| CirManager.CirMgr.DfsTraversal | src/cir/cirGate.h:53 | dispatches on the kind; an UNDEF gate adds nothing (cirGate.h:160); any other gate ends in the list or on the stack, and the list grows only by its fanin cone in post-order |
| CirManager.CirMgr.DfsAig | src/cir/cirGate.cpp:147-157 | both fanins before the gate; the list grows only by the cone, and the gate ends in it |
| CirManager.CirMgr.DfsPo | src/cir/cirGate.cpp:294-303 | the fanin before the PO; the PO ends in the list |
| CirManager.CirMgr.DfsLeaf | src/cir/cirGate.cpp:271-278 | a PI or the constant (cirGate.cpp:363-370) is appended once |
| CirManager.CirMgr.DfsFrom | src/cir/cirMgr.cpp:519-521 | every root ends in the list; the list holds only the roots' cones, each gate once, fanins before consumers |
| CirManager.CirMgr.Dfs | src/cir/cirMgr.cpp:515-522 | the new list is a duplicate-free post-order of exactly the gates reachable from the POs; the manager stays valid |
| CirManager.CirMgr.CountGate | src/cir/cirGate.cpp:187-198 | counts the AND gates `Walk` reaches that were not yet visited, and marks them visited |
| CirManager.CirMgr.WriteGate | src/cir/cirGate.h:141 | a PO writes its fanin's cone; the lines are `AndLines` of the same `Walk` |
| CirManager.CirMgr.WriteAig | src/cir/cirGate.cpp:172-185 | writes the unvisited AND gates of the cone, fanins first, one `2*id lit1 lit2` line each |
| CirManager.CirMgr.CountFrom | src/cir/cirMgr.cpp:651-654 | the count is the number of AND gates in the walk from all POs |
| CirManager.CirMgr.WriteFrom | src/cir/cirMgr.cpp:670-672 | the AND lines are those of the same walk from all POs |
| CirManager.CirMgr.InputLits | src/cir/cirMgr.cpp:663-664 | input literal k is `2 * PIs[k].id` |
| CirManager.CirMgr.OutputLits | src/cir/cirMgr.cpp:667-668 | output literal k is the literal of PO k's fanin |
| CirManager.CirMgr.NamedPins | src/cir/cirMgr.cpp:675-686 | the symbol lines are `Symbols` of the pins |
| CirManager.Symbols | src/cir/cirMgr.cpp:675-686 | only named pins give a line, carrying their index and name, in increasing index order |
| CirManager.SymbolsComplete | src/cir/cirMgr.cpp:675-686 | every named pin gives a line |
| CirManager.CirMgr.WriteAag | src/cir/cirMgr.cpp:647-689 | the header is `aag M I 0 O A` with M = gates - POs - 1 as a 64-bit unsigned value and A the number of AND lines; inputs and outputs as above; the AND lines are those of the walk from the POs; symbols for inputs, then outputs |
| CirManager.CirMgr.SortAllFanouts | src/cir/cirMgr.cpp:524-534 | every non-PO gate's fanouts sorted by id, each a permutation of the old; the manager stays valid |
| CirManager.ReorderedKeeps | src/cir/cirMgr.cpp:524-534 | reordering fanouts keeps liveness, both edge multisets, the mirror and ids |
| CirManager.SortedAll | src/cir/cirMgr.cpp:524-534 | sorting PIs, AIGs, UNDEFs and the constant covers every gate that has fanouts |
| CirManager.CirMgr.RemoveFanoutAt | src/cir/cirGate.cpp:119-129 | one producer drops its fanouts to one consumer |
| CirManager.CirMgr.RmRelatingFanouts | src/cir/cirGate.cpp:234-239 | the gate's producers drop their fanouts to it (for a PO, cirGate.h:150) and the table becomes `Strip` |
| CirManager.CirMgr.MoveFanouts | src/cir/cirFraig.cpp:67-70 | each consumer reads the new gate and the new gate lists it as a fanout: the table becomes `Rewiring` |
| CirManager.CirMgr.Replace | src/cir/cirFraig.cpp:63-73 | `Replaced`: strip, move the consumers, empty the slot; the table invariant holds |
| CirManager.ReplacedTable | src/cir/cirFraig.cpp:63-73 | replacing keeps mirror, ids, no PO read and the constant in slot 0 |
| CirManager.ListsKept | src/cir/cirOpt.cpp:71-94 | gate lists stay consistent when only kinds-preserving changes happen |
| CirManager.ReplacedKinds | src/cir/cirOpt.cpp:147 | replacing an AND gate changes no surviving gate's kind |
| CirAag.Decimal | src/cir/cirMgr.cpp:656-668 | the decimal text of n is a digit string whose value is n |
| CirAag.Spaced | src/cir/cirMgr.cpp:656-659 | numbers each preceded by a space; empty iff there are none |
| CirAag.Text | src/cir/cirMgr.cpp:647-689 | header, input, output, AND and symbol lines, then `c` |
| CirAag.IdsOf | src/cir/cirMgr.cpp:262-265 | the gate ids (`lit / 2`) of a literal list |
| CirAag.Lhs | src/cir/cirMgr.cpp:389-391 | the defined literal of each AND line |
| CirParse.At | src/cir/cirMgr.cpp:174-176 | a non-zero byte is inside the line (the buffer past the end reads 0) |
| CirParse.TokenLength | src/cir/cirMgr.cpp:208 | the token stops at the first byte its scan stops at, and at nothing before |
| CirParse.ReadNumber | src/cir/cirMgr.cpp:198-206 | on success, a non-empty digit token was read and its value returned with the rest of the line |
| CirParse.HeaderNumbers | src/cir/cirMgr.cpp:187-208 | on success, exactly n numbers were read |
| CirParse.ParseHeader | src/cir/cirMgr.cpp:172-231 | on success, no latches, and M is at least I + A |
| CirParse.ParseInput | src/cir/cirMgr.cpp:248-270 | on success, an even literal of at least 2, within M, whose gate is not yet defined |
| CirParse.ParseOutput | src/cir/cirMgr.cpp:288-305 | on success, a literal within M |
| CirParse.ParseAnd | src/cir/cirMgr.cpp:324-387 | on success, a definable undefined lhs and two fanin literals within M |
| CirParse.ParseSymbol | src/cir/cirMgr.cpp:413-457 | on success, an `i`/`o` symbol with an index in range, not yet named, and a printable non-empty name |
| CirParse.ParseInputs | src/cir/cirMgr.cpp:237-277 | on success, n inputs with distinct gates |
| CirParse.ParseOutputs | src/cir/cirMgr.cpp:278-313 | on success, n output literals within M |
| CirParse.ParseAnds | src/cir/cirMgr.cpp:314-395 | on success, n AND lines whose gates are distinct and distinct from the inputs |
| CirParse.ParseSymbols | src/cir/cirMgr.cpp:400-462 | on success, symbols up to the `c` line or the end, each pin named at most once |
| CirParse.Parse | src/cir/cirMgr.cpp:152-462 | on success, the file is a well-formed `aag` record |
| CirParse.DistinctDefinitions | src/cir/cirMgr.cpp:262-265 | inputs and AND outputs together define each gate at most once |
| CirParse.AndTextRead | src/cir/cirMgr.cpp:314-388 | an AND line as `writeGate` prints it (cirGate.cpp:182-184) passes the AND-line checks of `readCircuit` and reads back to the same definition |
| CirParse.SymbolTextRead | src/cir/cirMgr.cpp:677-684 | a symbol line as written reads back to the same symbol |
| CirParse.HeaderTextRead | src/cir/cirMgr.cpp:656-659 | the header as written reads back to the same numbers |
| CirParse.ParseText | src/cir/cirMgr.cpp:647-689 | the reader accepts the text of every well-formed record and returns that record: read after write is the identity |
| CirRead.DeclareInputs | src/cir/cirMgr.cpp:237-277 | one PI gate per input line, in its slot, and `PIs` lists them in order |
| CirRead.DeclareOutputs | src/cir/cirMgr.cpp:278-313 | PO k in slot M + k + 1, and `POs` lists them |
| CirRead.DeclareAnds | src/cir/cirMgr.cpp:314-395 | one AND gate per line, in its slot, and `AIGs` lists them |
| CirRead.NamePins | src/cir/cirMgr.cpp:402-460 | each symbol names its pin |
| CirRead.Declare | src/cir/cirMgr.cpp:233-460 | the table holds the declared gates and names, and the lists hold their ids |
| CirRead.WireAnd | src/cir/cirMgr.cpp:465-490 | an UNDEF gate is created for each missing fanin, the AND gate reads its fanins, and each fanin lists it as a fanout |
| CirRead.AndWiredAsWritten | src/cir/cirMgr.cpp:471-483 | the source's order of lookups: both fanins are looked up before either UNDEF gate is created |
| CirRead.AndWiredAgrees | src/cir/cirMgr.cpp:471-483 | the source's order and the model's agree unless both fanins are the same missing gate |
| CirRead.DoubleUndef | src/cir/cirMgr.cpp:471-483 | as written, an AND gate reading one missing gate twice lists two UNDEF gates for the same id |
| CirRead.DoubleUndefFixed | src/cir/cirMgr.cpp:471-483 | the model creates that UNDEF gate once |
| CirRead.WireOutput | src/cir/cirMgr.cpp:493-507 | an UNDEF gate for a missing fanin; the PO reads it, and it lists the PO |
| CirRead.WireAnds | src/cir/cirMgr.cpp:465-490 | every AND gate wired |
| CirRead.WireOutputs | src/cir/cirMgr.cpp:493-507 | every PO wired |
| CirRead.WiredTable | src/cir/cirMgr.cpp:464-507 | after wiring, the table invariant holds: mirror, ids, no gate reads a PO |
| CirRead.WiredLists | src/cir/cirMgr.cpp:464-507 | the four gate lists name exactly the gates of their kinds |
| CirRead.ReorderedBuilt | src/cir/cirMgr.cpp:509 | sorting fanouts keeps the built circuit |
| CirRead.Wire | src/cir/cirMgr.cpp:464-507 | declared gates become a wired circuit |
| CirRead.SortFanouts | src/cir/cirMgr.cpp:509 | fanouts sorted, and nothing else changes |
| CirRead.Finish | src/cir/cirMgr.cpp:510 | the DFS list of the loaded circuit |
| CirRead.Build | src/cir/cirMgr.cpp:464-510 | the manager holds the loaded circuit |
| CirRead.ReadCircuit | src/cir/cirMgr.cpp:152-513 | the result is `Parse` of the lines; on failure the manager is unchanged; on success it holds exactly the parsed circuit, with a valid table, sorted fanouts and the DFS list |
| CirReport.FloatingFaninIff | src/cir/cirGate.cpp:241-247 | `haveFloatingFanin` holds iff some fanin is an UNDEF gate (for a PO, cirGate.cpp:352-357) |
| CirReport.FloatingFaninReported | src/cir/cirGate.cpp:208-213 | `haveFloatingFanin` holds iff `getFloatingFanin` reports a gate |
| CirReport.Keep | src/cir/cirMgr.cpp:607-614 | the ids kept from a list all belong in the report |
| CirReport.KeepMembers | src/cir/cirMgr.cpp:607-614 | an id is kept iff it is listed and belongs in the report |
| CirReport.Collect | src/cir/cirMgr.cpp:607-614 | one loop appends `Keep` of its list |
| CirReport.ReportOf | src/cir/cirMgr.cpp:605-633 | the collected ids of two lists, sorted: a permutation of what both loops keep; an id is in it iff listed and reported |
| CirReport.PrintFloatGates | src/cir/cirMgr.cpp:602-640 | floating = sorted POs and AND gates with a floating fanin; unused = sorted PIs and AND gates defined but not used |
| CirReport.ReportsComplete | src/cir/cirMgr.cpp:602-640 | over a complete gate list, floating holds exactly the live gates reading an UNDEF gate, and unused exactly the live AND gates and PIs without fanouts |
| CirOpt.TrivialChoice | src/cir/cirOpt.cpp:105-119 | a gate is kept iff neither fanin is the constant and its fanins are on different gates; a replacement is one of its fanins |
| CirOpt.TrivialSound | src/cir/cirOpt.cpp:105-137 | under any valuation with the constant false, the replacement computes the AND of the two fanins |
| CirOpt.TrivialOpt | src/cir/cirOpt.cpp:96-148 | one gate's step `OptStep`, keeping the table invariant |
| CirOpt.ReplacedSimplified | src/cir/cirOpt.cpp:59-62 | replacing the current gate keeps the earlier gates simplified |
| CirOpt.SimplifyAll | src/cir/cirOpt.cpp:59-62 | the loop over the DFS list leaves every listed AND gate simplified; kinds and the table invariant are kept |
| CirOpt.LiveOnly | src/cir/cirOpt.cpp:75-81 | exactly the listed AND gates whose slot is filled |
| CirOpt.KeptUndefs | src/cir/cirOpt.cpp:83-93 | exactly the listed UNDEF gates still read by a gate |
| CirOpt.UndefsAsWritten | src/cir/cirOpt.cpp:83-93 | as written: an UNDEF gate is dropped only when its slot is empty (`definedNotUsed` is false for UNDEF gates) |
| CirOpt.UnreadUndefKept | src/cir/cirOpt.cpp:87 | as written, an UNDEF gate nobody reads is kept |
| CirOpt.ClearedUndefs | src/cir/cirOpt.cpp:86-90 | the slots of listed UNDEF gates nobody reads are emptied, and no other slot changes |
| CirOpt.ClearedTable | src/cir/cirOpt.cpp:83-93 | emptying unread UNDEF gates keeps the table invariant |
| CirOpt.DropEmptyAigs | src/cir/cirOpt.cpp:74-81 | `AIGs` becomes `LiveOnly` |
| CirOpt.DropUnreadUndefs | src/cir/cirOpt.cpp:82-93 | `UNDEFs` becomes `KeptUndefs` and the unread slots are emptied |
| CirOpt.UpdateGateLists | src/cir/cirOpt.cpp:71-94 | both lists name only live gates of their kind, each UNDEF gate still read; the manager stays valid |
| CirOpt.UpdatedManager | src/cir/cirOpt.cpp:71-94 | those lists and that table form a valid manager |
| CirOpt.DfsFirst | src/cir/cirOpt.cpp:59-62 | on an acyclic table a DFS list has no duplicates, and every traversed fanin of a listed gate other than the constant is listed before it |
| CirOpt.DfsWithin | src/cir/cirOpt.cpp:63-65 | the new DFS list after optimize holds only simplified gates |
| CirOpt.ReplacedRanked | src/cir/cirFraig.cpp:63-73 | moving a gate's readers to a gate ranked no higher keeps the circuit ranked, so acyclic |
| CirOpt.OptStepAcyclic | src/cir/cirOpt.cpp:96-148 | `trivialOpt` of any gate keeps an acyclic circuit acyclic |
| CirOpt.ShrunkAcyclic | src/cir/cirOpt.cpp:71-94 | emptying slots and reordering fanouts, as `updateGateLists` and `sortAllFanouts` do, keep a circuit acyclic |
| CirOpt.Optimize | src/cir/cirOpt.cpp:56-66 | the new table is `trivialOpt` of every gate of the old DFS list followed by the UNDEF clean-up, up to fanout order; `AIGs` and `UNDEFs` are trimmed against that table; the manager stays valid and acyclic, the new DFS list is one of the new table, and no trivial AND gate is left on it |
| CirOpt.OptimizeGates | src/cir/cirOpt.cpp:59-64 | the loop, the list update and the fanout sort: the table is the same `OptPass` and clean-up as in `Optimize`, up to fanout order; the lists are trimmed against it; every listed AND gate is simplified and the circuit stays acyclic |
| CirOpt.FloatingFanin | src/cir/cirGate.cpp:208-213 | reports exactly the fanins that are UNDEF gates, for AND gates and, as intended, for POs |
| CirOpt.FloatingFaninAsWritten | src/cir/cirGate.cpp:208-213 | as written, only an AND gate reports: a PO reports nothing |
| CirOpt.GetSortedDfsList | src/cir/cirOpt.cpp:150-165 | entry j is set iff gate j is on the DFS list or is a floating fanin of a listed gate |
| CirOpt.Swept | src/cir/cirOpt.cpp:37-48 | the swept table: a gate survives iff it was live and not removed; survivors keep kind and id |
| CirOpt.SweptStep | src/cir/cirOpt.cpp:45-46 | removing one more gate is `rmRelatingFanouts` and emptying the slot |
| CirOpt.SweptMirror | src/cir/cirOpt.cpp:37-48 | removing gates nobody kept reads keeps the mirror |
| CirOpt.SweptValid | src/cir/cirOpt.cpp:37-48 | the sweep keeps the table invariant and every surviving gate's kind |
| CirOpt.SweptReady | src/cir/cirOpt.cpp:37-50 | the gate lists stay consistent; no unread UNDEF gate is left; the survivors are the constant, the PIs and the listed gates |
| CirOpt.SweepLoop | src/cir/cirOpt.cpp:37-48 | the loop from slot 1 removes exactly the unlisted non-PI gates |
| CirOpt.Sweep | src/cir/cirOpt.cpp:33-51 | a gate survives iff it is the constant, a PI, on the DFS list, or an UNDEF gate a listed gate reads; lists updated; the manager stays valid; the unchanged DFS list (line 31) stays a DFS list of an acyclic circuit, which stays acyclic |
| CirOpt.ShrunkDfs | src/cir/cirOpt.cpp:31 | emptying slots not on a DFS list keeps an acyclic circuit acyclic and the list one of its DFS lists |
| CirOpt.SweptDfs | src/cir/cirOpt.cpp:31-50 | on an acyclic circuit the swept table is acyclic, and the DFS list the sweep leaves unchanged is one of its DFS lists |
| CirOpt.PoFloatingFaninSwept | src/cir/cirOpt.cpp:155-162 | as written, a PO's UNDEF fanin is swept while the PO still reads it, which breaks the mirror; the corrected sweep keeps it |
| CirOpt.FirstGateSkipped | src/cir/cirOpt.cpp:59 | as written, the first DFS entry is never simplified, even when it is a trivial AND gate |
| CirFraig.Pairs | src/cir/cirFraig.cpp:48 | the hash entries: each kept gate with its fanin key |
| CirFraig.Match | src/cir/cirFraig.cpp:42 | a kept AND gate with an equal key, or none iff no kept gate has one |
| CirFraig.StrashedNoTwins | src/cir/cirFraig.cpp:34-53 | after strash no two listed AND gates have equal keys |
| CirFraig.HitIsMatch | src/cir/cirFraig.cpp:42 | a hash hit finds the matching kept gate |
| CirFraig.MissIsNone | src/cir/cirFraig.cpp:42 | a hash miss means no kept gate matches |
| CirFraig.MergeAt | src/cir/cirFraig.cpp:42-45 | a duplicate is replaced by its match (`mergeSTR`, lines 63-73) and its slot emptied |
| CirFraig.MergeSound | src/cir/cirFraig.cpp:42-45 | under every valuation, a gate and the kept gate its key matches compute the same AND, so the merge keeps every consumer's function |
| CirFraig.MergeAcyclic | src/cir/cirFraig.cpp:42-45 | merging an AND gate into another with an equal key keeps the circuit acyclic |
| CirFraig.InsertAt | src/cir/cirFraig.cpp:47-48 | a new key is inserted with its gate |
| CirFraig.StrashAt | src/cir/cirFraig.cpp:38-49 | one iteration: merge or insert, as `StrashStep` says |
| CirFraig.StrashLoop | src/cir/cirFraig.cpp:37-49 | the loop computes `StrashFrom` and leaves the list structurally hashed |
| CirFraig.Strash | src/cir/cirFraig.cpp:34-53 | the new table is the strash loop's merges over the old DFS list followed by the UNDEF clean-up, up to fanout order; `AIGs` and `UNDEFs` are trimmed against that table; the manager stays valid and acyclic, the new DFS list is one of the new table, and no two listed AND gates are structurally equal |
| CirFraig.StrashGates | src/cir/cirFraig.cpp:37-51 | the loop, the list update and the fanout sort: the table is `StrashFrom` of the old one followed by the clean-up, up to fanout order; the lists are trimmed against it; the list is structurally hashed and the circuit stays acyclic |
| CirFraig.StrashFromFixed | src/cir/cirFraig.cpp:37-49 | on a structurally hashed table the loop changes nothing |
| CirFraig.StrashIdempotent | src/cir/cirFraig.cpp:34-53 | strashing twice is strashing once |
| FecGroups.Class | src/cir/cirSim.cpp:103-118 | the members of a group with a given value, in group order |
| FecGroups.ClassSnoc | src/cir/cirSim.cpp:103-118 | one more member extends its own class only |
| FecGroups.SameKeyContract | src/cir/cirSim.cpp:102 | simulation words are valid hash keys |
| FecGroups.FileMember | src/cir/cirSim.cpp:104-117 | filing one more member keeps every list a class of the group so far |
| FecGroups.JoinMember | src/cir/cirSim.cpp:109-113 | a member with a known value joins its list |
| FecGroups.StartMember | src/cir/cirSim.cpp:114-117 | a member with a new value starts a list |
| FecGroups.FileGroup | src/cir/cirSim.cpp:102-118 | the whole group filed by value |
| FecGroups.FiledComplete | src/cir/cirSim.cpp:119-122 | every class of two or more has its list |
| FecGroups.FiledKey | src/cir/cirSim.cpp:104-117 | every member of a filed list lies in the group and carries the list's value |
| FecGroups.Collect | src/cir/cirSim.cpp:119-122 | the lists of two or more members, each a sorted class; lists filed under different values share no reference, so no reference lies in two results |
| FecGroups.SplitGroup | src/cir/cirSim.cpp:102-122 | the split of one group: sorted classes of two or more, every such class present, no reference in two of them |
| FecGroups.DisjointSnoc | src/cir/cirSim.cpp:121 | appending a group that shares no reference with the earlier ones keeps the groups pairwise disjoint |
| FecGroups.DisjointAppend | src/cir/cirSim.cpp:100-122 | two runs of pairwise disjoint groups with nothing shared across them are pairwise disjoint together |
| FecGroups.SplitOutside | src/cir/cirSim.cpp:102-122 | a reference outside an old group lies in none of its splits |
| FecGroups.PairClass | src/cir/cirSim.cpp:119-122 | two distinct members with one value share a class of two or more |
| FecGroups.Refine | src/cir/cirSim.cpp:100-126 | every new group is a class of an old group, every class of two or more survives, and when the old groups are pairwise disjoint so are the new ones |
| FecGroups.GatherDisjoint | src/cir/cirSim.cpp:100-122 | with disjoint old groups, the splits of one old group share nothing with the splits gathered before it |
| FecGroups.FecKeptSeed | src/cir/cirSim.cpp:56 | before any round, the seed group alone keeps every pair together |
| FecGroups.RefineKept | src/cir/cirSim.cpp:100-126 | refining keeps exactly the pairs that agreed in every round together, in pairwise disjoint groups |
| FecGroups.FecKeptPermuted | src/cir/cirSim.cpp:129 | reordering groups keeps that, disjointness included |
| FecGroups.DisjointOnce | src/cir/cirSim.cpp:121 | non-empty pairwise disjoint groups are all different: each appears once |
| FecGroups.DisjointPermuted | src/cir/cirSim.cpp:129 | any reordering of non-empty pairwise disjoint groups is pairwise disjoint |
| CirSim.NotNot | src/cir/cirSim.cpp:107 | complementing a word twice is the identity |
| CirSim.NotDiffers | src/cir/cirSim.cpp:107 | no word is its own complement |
| CirSim.AndLaws | src/cir/cirSim.cpp:144 | AND with zero, with all ones, with itself and with its complement |
| CirSim.RefValue | src/cir/cirSim.cpp:107 | a reference's word |
| CirSim.RefNegate | src/cir/cirSim.cpp:107 | the two polarities read complementary, hence different, words |
| CirSim.AndValue | src/cir/cirSim.cpp:138-144 | an AND gate's word from its fanins' words and polarities |
| CirSim.TrivialWords | src/cir/cirOpt.cpp:105-137 | with the constant's word all zeros, the replacement `trivialOpt` chooses for an AND gate reads the gate's own simulated word: zero for a constant tie, the chosen fanin's word otherwise |
| CirSim.SimGate | src/cir/cirSim.cpp:135-145 | simulating a gate changes only its own word |
| CirSim.SimList | src/cir/cirSim.cpp:94-97 | simulating a list changes only the listed words |
| CirSim.SimConsistent | src/cir/cirSim.cpp:94-97 | in fanin-first order, every gate's final word is the AND of its fanins' final words (a PO copies its fanin) |
| CirSim.LoadInputs | src/cir/cirSim.cpp:91-93 | only the PIs' words change |
| CirSim.LoadInputsLast | src/cir/cirSim.cpp:91-93 | each PI holds its own pattern |
| CirSim.Round | src/cir/cirSim.cpp:90-97 | one round of simulation |
| CirSim.Simulate | src/cir/cirSim.cpp:90-97 | the words become `Round` |
| CirSim.LoadPatterns | src/cir/cirSim.cpp:90-93 | the constant is zero and the PIs hold the patterns |
| CirSim.SimulateList | src/cir/cirSim.cpp:94-97 | the DFS list simulated in order |
| CirSim.SeedGroupAsWritten | src/cir/cirSim.cpp:47-54 | as written: the constant, then both polarities of each listed gate that is not PI, PO or UNDEF, which includes the constant again |
| CirSim.ConstSeededTwice | src/cir/cirSim.cpp:47-54 | as written, the constant appears twice in the seed, so the refinement keeps a group made only of the constant |
| CirSim.SeedGroup | src/cir/cirSim.cpp:47-54 | the corrected seed: the constant, then both polarities of each listed AND gate |
| CirSim.SeedOnce | src/cir/cirSim.cpp:47-54 | the corrected seed lists each reference once |
| CirSim.Seed | src/cir/cirSim.cpp:44-56 | the groups become the one seed group |
| CirSim.KeyOf | src/cir/cirSim.cpp:107 | a reference's key is its word |
| CirSim.SortFECGrps | src/cir/cirSim.cpp:147-156 | groups sorted by their first gate's id, a permutation of the old |
| CirSim.Histories | src/cir/cirSim.cpp:58-128 | the words of every round |
| CirSim.SimulatedRounds | src/cir/cirSim.cpp:58-128 | round k's words are `Round` of the words before it |
| CirSim.FileSim | src/cir/cirSim.cpp:40-130 | after the rounds, the groups are sorted, each lists a reference at most once, no reference lies in two groups (so no group appears twice), and two seed references share a group iff they agreed in every round; after at least one round every group has two or more members, sorted by id |
| CirSim.RefineAndSort | src/cir/cirSim.cpp:58-129 | the rounds, then the sort: the sorted groups keep every agreeing pair together, in pairwise disjoint groups each listing a reference once |
| CirSim.RefineRounds | src/cir/cirSim.cpp:58-128 | every round simulated and refined; after each, agreeing pairs share a group and the groups are pairwise disjoint |
| CirSim.RefineRound | src/cir/cirSim.cpp:90-126 | one round: simulate, then refine every group; agreeing pairs stay together and pairwise disjoint groups stay disjoint |
| Sorting.InsertBy | src/cir/cirGate.h:76 | inserting into a sorted list keeps it sorted and adds exactly the element |
| Sorting.SortBy | src/cir/cirGate.h:76 | a sorted permutation of the input |

## Left out

- I/O: file names, streams, `cout`/`cerr`, error messages, and the line and column numbers of errors. The reader takes the file as a sequence of byte lines and returns a `ParseError` kind. The writer returns an `Aag` record, and `CirAag.Text` is its text.
- The 1024-byte line buffer of `readCircuit`: lines are unbounded.
- `myStr2Int` (in `util.h`, not part of this model) is taken as "a non-empty string of decimal digits". `unsigned` overflow of the header numbers is not modelled.
- Integer widths: all counts are unbounded. The exception is `writeAag`'s first header number, which is computed modulo 2^64 as the source's `size_t` subtraction.
- CirRead.ReadCircuit: the model validates every line before building. So on a failure the manager is unchanged, while the source leaves the gates built so far in place. On success the model starts from an empty table, as on the fresh manager `readCircuit` is called on: whatever the manager held before is replaced, not merged. It requires only that the traversal epoch `globalRef` is at least 1.
- The simulation words start as zero words; the source leaves them uninitialised until the first round.
- Sort ties: `std::sort` is not stable. The model's sorts return one sorted permutation, and the contracts state only sortedness and permutation.
- Pointers are gate ids. Deleting a gate object is emptying its slot.
- The iterator's `operator=` (myHashMap.h:86) assigns through to the node rather than copying the iterator; it is not modelled.
- The stubs `randomSim`, `fraig`, `printFECPairs` and `CirMgr::writeGate` (cirSim.cpp:35-38, cirFraig.cpp:55-58, cirMgr.cpp:642-645, 691-694) have empty bodies and are not modelled.
- The printing functions are not modelled: `printSummary`, `printNetlist`, `printPIs`, `printPOs`, `printGate`, `reportGate`, `reportFanin`, `reportFanout`, `printFanin`, `printFanout`. `bfsTraversal`, which nothing calls, is not modelled either.
- The "Sweeping:", "Simplifying:" and "Strashing:" messages are not modelled.
- CirSim.FileSim: the pattern file is not parsed. Each round arrives as one word per PI. The source's pattern-reading loop (cirSim.cpp:58-88) calls `patterns[j] << 1` without assigning the result, and `SimValue`'s class is not part of this model. `x ^ isInverting(r)` on a `SimValue` is read as the complement when `r` inverts, as the words' polarity requires.
- CirSim.FileSim: the rounds are a given sequence, where the source loops while the stream is good.
- CirOpt.TrivialOpt: the model requires that the gate does not read itself, which no acyclic circuit allows.
- CirOpt.Optimize, CirOpt.OptimizeGates, CirFraig.Strash, CirFraig.StrashGates: these require an acyclic circuit (`Acyclic`), as the AIGER format demands. `readCircuit` does not check for combinational cycles, and `CirRead.ReadCircuit` does not establish `Acyclic`, so a caller must know it of its input. Once it holds, `CirOpt.Sweep`, `CirOpt.Optimize` and `CirFraig.Strash` each keep it, so the three passes chain. The model says nothing about these passes on a cyclic circuit.
- CirGate.NewFanin: the model follows the build with `NDEBUG` defined. The `assert` at cirGate.cpp:229, that the gate reads the old gate, is dropped. An AND gate that reads the old gate through both fanins is listed twice in its fanout list, so it gets a second `newFanin`. The first call has already redirected both slots, so in the model the second call leaves the gate unchanged (`CirGraph.NewFaninTwice`), while a debug build would abort there.
- CirGate.RemoveFanout: the source steps its iterator back after erasing, which is undefined when the first fanout is erased. The model removes every fanout on the gate, which is what the loop evidently intends.
- HashMapModel.HashMap.Update: `myHashMap.h:156` writes `.sceond`, which does not compile once the member is instantiated. The model overwrites the entry's data, as evidently intended.
- CirReport.PrintFloatGates: the source reads every listed AND gate, and its lists never hold an emptied slot after `updateGateLists`. The model reports an emptied slot as not belonging.
- CirDef.Hash: the source scales a literal by `0.578125` in floating point. The model takes the scaling as a given function to 64 bits, and its contracts hold for any scaling. `Scale` is the exact `lit * 37 / 64`; the source converts the literal to a double first, which rounds literals above 2^53.

## Findings

| source | as written | input that shows it | evidently intended | confidence | as-written member | corrected member |
|---|---|---|---|---|---|---|
| src/cir/cirOpt.cpp:59 | `optimize` starts its loop at index 1 of `_dfsList` | the DFS list `[2, 3]`, where gate 2 is `AND(1, 1)` on an UNDEF gate 1 and PO 3 reads 2: gate 2 is never simplified | every listed AND gate is visited | not executed | CirOpt.FirstGateSkipped | CirOpt.SimplifyAll |
| src/cir/cirOpt.cpp:87 | an UNDEF gate is dropped only if `definedNotUsed()`, which UNDEF gates never override, so it is always false | an UNDEF gate 1 that no gate reads stays listed and in the table | UNDEF gates nobody reads are deleted, as the comment on `optimize` says | not executed | CirOpt.UnreadUndefKept | CirOpt.DropUnreadUndefs |
| src/cir/cirOpt.cpp:160 | `getFloatingFanin` exists only for AND gates (cirGate.cpp:208-213), so a PO's UNDEF fanin is not kept in the sorted DFS list | PO 2 reading UNDEF gate 1: the sweep empties slot 1 while PO 2 still reads it | a PO's floating fanin survives the sweep like an AND gate's | not executed | CirOpt.PoFloatingFaninSwept | CirOpt.Sweep |
| src/cir/cirSim.cpp:47-53 | the seed group starts with the constant and then adds every listed gate that is not PI, PO or UNDEF, which includes the constant | any circuit whose DFS list holds the constant: the seed holds `Ref(0, false)` twice, and refinement keeps a group of the constant with itself | the constant once, and both polarities of each AND gate | not executed | CirSim.ConstSeededTwice | CirSim.SeedOnce |
| src/cir/cirMgr.cpp:471-483 | both fanins are looked up before either UNDEF gate is created | an AND line `4 2 2` with 2 undefined: two UNDEF gates with id 1 are created and listed, the second replacing the first in the table | one UNDEF gate per missing id | not executed | CirRead.DoubleUndef | CirRead.DoubleUndefFixed |
