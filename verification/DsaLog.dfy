/** The delegation status log: accumulators cached by zone name, and a database that holds a serialised
    copy of each.
 */
module DsaLog {
  import opened Names
  import opened LeafChain
  import opened MerkleValue
  import opened MerklePath
  import opened MerkleTrees
  import opened Accumulator
  import opened Provers

  const CACHE_MAX_SIZE := 10000

  /** An accumulator as the database stores it. */
  datatype Record = Record(zone: string, alv: nat, exp: int, cert: string, tree: Tree, subzones: seq<LeafContent>)

  /** An accumulator as the cache holds it: the tree is an object, linked and with its leaf list. */
  datatype DSA = DSA(zone: string, alv: nat, exp: int, cert: string, acc: MerkleTree, subzones: seq<LeafContent>)

  datatype Dsp = Dsp(zone: string, roothash: string, alv: nat, cert: string, exp: int, epoch: nat, proof: Proof)

  datatype Answer = Ok(dsp: Dsp) | NoParent | WrongClaim

  // ---- the log as values ----

  /** Cache and database, both as maps of records. */
  datatype View = View(cache: map<string, Record>, db: map<string, Record>)

  /** The arguments of one call. `evict` is the key that the iteration over a full cache meets first. */
  datatype Add = Add(pZone: string, pAlv: nat, pCert: string, exp: int, cZone: string, cAlv: nat, cCert: string,
                     evict: string)

  function ChildZone(a: Add): LeafZone {
    LeafZone(a.cZone, a.cAlv, Existing)
  }

  function Evicted<V>(cache: map<string, V>, a: Add): map<string, V> {
    if |cache| > CACHE_MAX_SIZE then cache - {a.evict} else cache
  }

  function ParentRecord(H: Hash, cache: map<string, Record>, a: Add): Record {
    var subzones := Insert(if a.pZone in cache then cache[a.pZone].subzones else [], ChildZone(a));
    if a.pZone in cache then cache[a.pZone].(tree := TreeOf(H, subzones), subzones := subzones)
    else Record(a.pZone, a.pAlv, a.exp, a.pCert, TreeOf(H, subzones), subzones)
  }

  function ChildRecord(H: Hash, a: Add): Record {
    Record(a.cZone, a.cAlv, 0, a.cCert, TreeOf(H, [Total]), [Total])
  }

  /** One call; `w1` and `w2` tell whether the two database writes succeed. */
  function Added(H: Hash, v: View, a: Add, w1: bool, w2: bool): View {
    var cache := Evicted(v.cache, a);
    var parent, child := ParentRecord(H, cache, a), ChildRecord(H, a);
    if !w1 then View(cache[a.pZone := parent], v.db)
    else if !w2 then View(cache[a.pZone := parent][a.cZone := child], v.db[a.pZone := parent])
    else View(cache[a.pZone := parent][a.cZone := child], v.db[a.pZone := parent][a.cZone := child])
  }

  function Lookup(v: View, zone: string): Option<Record> {
    if zone in v.cache then Some(v.cache[zone]) else if zone in v.db then Some(v.db[zone]) else None
  }

  function ProofFor(r: Record, name: string, ptype: ProofType): Option<Proof> {
    match ptype
    case Presence => PresenceAnswer(r.tree, Leaves(r.tree), name)
    case Absence => AbsenceAnswer(r.tree, Leaves(r.tree), name)
  }

  function AnswerFor(r: Option<Record>, name: string, ptype: ProofType, epoch: nat): Answer {
    if r.None? then NoParent
    else
      var p := ProofFor(r.value, name, ptype);
      if p.None? then WrongClaim
      else Ok(Dsp(r.value.zone, r.value.tree.hash, r.value.alv, r.value.cert, r.value.exp, epoch, p.value))
  }

  /** Every cached accumulator has its copy in the database. */
  ghost predicate Coherent(v: View) {
    forall z :: z in v.cache ==> z in v.db && v.db[z] == v.cache[z]
  }

  ghost predicate Holds(db: map<string, Record>, z: string, r: Record) {
    z in db && db[z] == r
  }

  /** A call keeps cache and database in agreement exactly when each write it attempts succeeds or was not
      needed because the database held that record already. Which entry is evicted does not matter. */
  lemma AddedCoherent(H: Hash, v: View, a: Add, w1: bool, w2: bool)
    requires Coherent(v)
    ensures var parent, child := ParentRecord(H, Evicted(v.cache, a), a), ChildRecord(H, a);
      Coherent(Added(H, v, a, w1, w2)) <==>
        if !w1 then Holds(v.db, a.pZone, parent) else w2 || Holds(v.db[a.pZone := parent], a.cZone, child)
  {
    hide ParentRecord, ChildRecord;
    var cache := Evicted(v.cache, a);
    var parent, child := ParentRecord(H, cache, a), ChildRecord(H, a);
    var v' := Added(H, v, a, w1, w2);
    assert a.pZone in v'.cache;
    if w1 {
      assert v'.cache[a.cZone] == child;
    }
  }

  // ---- the log as an object ----

  /** Subzones as the log makes them. */
  ghost predicate ListForm(subzones: seq<LeafContent>) {
    subzones != [] && exists lead, zs :: Delegated(zs) && subzones == LeafList(lead, zs)
  }

  /** A record as the log makes it: the tree is the tree of the subzones, and these are in list form. */
  ghost predicate WellFormed(H: Hash, r: Record) {
    ListForm(r.subzones) && r.tree == TreeOf(H, r.subzones)
  }

  ghost predicate AllWellFormed(H: Hash, m: map<string, Record>) {
    forall z :: z in m ==> WellFormed(H, m[z])
  }

  /** A list form stays a list form under insertion. */
  lemma InsertWellFormed(subzones: seq<LeafContent>, z: LeafZone)
    requires z.zoneType == Existing
    requires subzones == [] || ListForm(subzones)
    ensures |subzones| <= 1 || !StartsAfter(subzones[0], z)
    ensures ListForm(Insert(subzones, z))
  {
    var lead, zs;
    if subzones == [] {
      lead, zs := false, [];
    } else {
      lead, zs :| Delegated(zs) && subzones == LeafList(lead, zs);
    }
    assert subzones == LeafList(lead, zs);
    InsertKeepsChain(lead, zs, z);
    PlacedKeepsOrder(zs, z);
    PlacedMembers(zs, z);
    assert Delegated(LeafChain.Placed(zs, z));
  }

  lemma ParentWellFormed(H: Hash, cache: map<string, Record>, a: Add)
    requires AllWellFormed(H, cache)
    ensures WellFormed(H, ParentRecord(H, cache, a))
    ensures a.pZone in cache ==>
      |cache[a.pZone].subzones| <= 1 || !StartsAfter(cache[a.pZone].subzones[0], ChildZone(a))
  {
    InsertWellFormed(if a.pZone in cache then cache[a.pZone].subzones else [], ChildZone(a));
  }

  lemma ChildWellFormed(H: Hash, a: Add)
    ensures WellFormed(H, ChildRecord(H, a))
  {
    assert Delegated([]) && [Total] == LeafList(true, []);
  }

  lemma AddedWellFormed(H: Hash, v: View, a: Add, w1: bool, w2: bool)
    requires AllWellFormed(H, v.cache) && AllWellFormed(H, v.db)
    ensures AllWellFormed(H, Evicted(v.cache, a))
    ensures AllWellFormed(H, Added(H, v, a, w1, w2).cache) && AllWellFormed(H, Added(H, v, a, w1, w2).db)
  {
    var cache := Evicted(v.cache, a);
    var parent, child := ParentRecord(H, cache, a), ChildRecord(H, a);
    assert AllWellFormed(H, cache);
    ParentWellFormed(H, cache, a);
    ChildWellFormed(H, a);
    hide WellFormed, AllWellFormed, ParentRecord, ChildRecord, Evicted;
    PutWellFormed(H, cache, a.pZone, parent);
    PutWellFormed(H, cache[a.pZone := parent], a.cZone, child);
    PutWellFormed(H, v.db, a.pZone, parent);
    PutWellFormed(H, v.db[a.pZone := parent], a.cZone, child);
  }

  lemma PutWellFormed(H: Hash, m: map<string, Record>, z: string, r: Record)
    requires AllWellFormed(H, m) && WellFormed(H, r)
    ensures AllWellFormed(H, m[z := r])
  {
  }

  /** What a cached accumulator denotes. */
  ghost function RecordOf(d: DSA): Record
    requires d.acc.Root != null
    reads d.acc
  {
    Record(d.zone, d.alv, d.exp, d.cert, d.acc.Value(), d.subzones)
  }

  /** The object is linked and has its full leaf list, and what it denotes is well formed. */
  ghost predicate Live(H: Hash, d: DSA)
    reads d.acc, d.acc.Nodes()
  {
    d.acc.Valid(H) && |d.acc.Leafs| == |Leaves(d.acc.Value())| && WellFormed(H, RecordOf(d))
  }

  ghost predicate Apart(d: DSA, e: DSA)
    reads d.acc, e.acc
  {
    d.acc != e.acc && d.acc.Nodes() !! e.acc.Nodes()
  }

  /** The tree is rebuilt in place from the subzones, then its links are cut, it is serialised, and the links are
      restored, which also fills the leaf list. */
  method Fill(H: Hash, acc: MerkleTree, subzones: seq<LeafContent>) returns (t: Tree)
    requires subzones != []
    modifies acc
    ensures acc.Valid(H) && acc.Value() == t == TreeOf(H, subzones) && |acc.Leafs| == |Leaves(t)| && fresh(acc.Nodes())
  {
    var ok := acc.RebuildTreeWith(H, subzones);
    t := acc.Write(H);
  }

  function Filled(H: Hash, d: DSA): Record
    requires d.subzones != []
  {
    Record(d.zone, d.alv, d.exp, d.cert, TreeOf(H, d.subzones), d.subzones)
  }

  method FillLive(H: Hash, d: DSA) returns (rec: Record)
    requires ListForm(d.subzones)
    modifies d.acc
    ensures Live(H, d) && fresh(d.acc.Nodes())
    ensures d.acc.Root != null && RecordOf(d) == rec == Filled(H, d)
  {
    var t := Fill(H, d.acc, d.subzones);
    rec := Record(d.zone, d.alv, d.exp, d.cert, t, d.subzones);
  }

  method Prove(H: Hash, d: DSA, name: string, ptype: ProofType, epoch: nat) returns (r: Answer)
    requires Live(H, d)
    ensures r == AnswerFor(Some(RecordOf(d)), name, ptype, epoch)
  {
    assert Listed(d.acc) == Leaves(d.acc.Value());
    var proof;
    if ptype == Presence {
      proof := GetMPathProofPresence(d.acc, H, name);
    } else {
      proof := GetMPathProofAbsence(d.acc, H, name);
    }
    if proof.None? {
      return WrongClaim;
    }
    return Ok(Dsp(d.zone, d.acc.Root.Hash, d.alv, d.cert, d.exp, epoch, proof.value));
  }

  // ---- the objects of the cache ----

  ghost function Accs(m: map<string, DSA>): set<MerkleTree> {
    set z | z in m :: m[z].acc
  }

  ghost function AccNodes(m: map<string, DSA>): set<Node>
    reads Accs(m)
  {
    set z, n | z in m && n in m[z].acc.Nodes() :: n
  }

  ghost predicate AllLive(H: Hash, m: map<string, DSA>)
    reads Accs(m), AccNodes(m)
  {
    forall z :: z in m ==> Live(H, m[z])
  }

  ghost predicate AllApart(m: map<string, DSA>)
    reads Accs(m)
  {
    forall y, z :: y in m && z in m && y != z ==> Apart(m[y], m[z])
  }

  ghost predicate AllBuilt(m: map<string, DSA>)
    reads Accs(m)
  {
    forall z :: z in m ==> m[z].acc.Root != null
  }

  ghost function Records(m: map<string, DSA>): map<string, Record>
    requires AllBuilt(m)
    reads Accs(m)
  {
    map z | z in m :: RecordOf(m[z])
  }

  lemma LiveIsBuilt(H: Hash, d: DSA)
    requires Live(H, d)
    ensures d.acc.Root != null && WellFormed(H, RecordOf(d))
  {
  }

  lemma AllLiveIsBuilt(H: Hash, m: map<string, DSA>)
    requires AllLive(H, m)
    ensures AllBuilt(m) && AllWellFormed(H, Records(m))
  {
    hide Live, WellFormed, RecordOf;
    forall z | z in m ensures m[z].acc.Root != null && WellFormed(H, RecordOf(m[z])) {
      LiveIsBuilt(H, m[z]);
    }
  }

  lemma FewerLive(H: Hash, m: map<string, DSA>, gone: string)
    requires AllLive(H, m) && AllApart(m)
    ensures AllLive(H, m - {gone}) && AllApart(m - {gone})
    ensures gone in m ==> m[gone].acc !in Accs(m - {gone})
  {
    hide Live;
  }

  lemma FewerRecords(m: map<string, DSA>, gone: string)
    requires AllBuilt(m)
    ensures AllBuilt(m - {gone}) && Records(m - {gone}) == Records(m) - {gone}
  {
    hide RecordOf;
  }

  lemma OneMoreLive(H: Hash, rest: map<string, DSA>, z: string, d: DSA)
    requires AllLive(H, rest) && AllApart(rest) && Live(H, d)
    requires forall y :: y in rest ==> Apart(rest[y], d)
    ensures AllLive(H, rest[z := d]) && AllApart(rest[z := d])
  {
    hide Live;
    forall y | y in rest ensures Apart(rest[y], d) && Apart(d, rest[y]) {
    }
    hide Apart;
  }

  lemma OneMoreRecord(rest: map<string, DSA>, z: string, d: DSA)
    requires AllBuilt(rest) && d.acc.Root != null
    ensures AllBuilt(rest[z := d]) && Records(rest[z := d]) == Records(rest)[z := RecordOf(d)]
  {
    hide RecordOf;
  }

  twostate lemma StillLive(new H: Hash, d: DSA)
    requires old(Live(H, d)) && unchanged(d.acc) && unchanged(d.acc.Nodes())
    ensures Live(H, d)
  {
    hide Live;
  }

  /** Nothing about a cache changes while none of its objects does. */
  twostate lemma StillCached(new H: Hash, m: map<string, DSA>)
    requires old(AllLive(H, m) && AllApart(m) && AllBuilt(m))
    requires forall z :: z in m ==> unchanged(m[z].acc)
    requires forall z :: z in m ==> unchanged(m[z].acc.Nodes())
    ensures AllLive(H, m) && AllApart(m) && AllBuilt(m) && Records(m) == old(Records(m))
  {
    hide Live, Apart;
    forall z | z in m ensures Live(H, m[z]) {
      StillLive(H, m[z]);
    }
  }

  /** Filling one accumulator leaves those that do not share its object as they are, and shares no node with them. */
  method FillApart(H: Hash, d: DSA, ghost rest: map<string, DSA>) returns (rec: Record)
    requires AllLive(H, rest) && AllApart(rest) && AllBuilt(rest) && d.acc !in Accs(rest) && ListForm(d.subzones)
    modifies d.acc
    ensures AllLive(H, rest) && AllApart(rest) && AllBuilt(rest) && Records(rest) == old(Records(rest))
    ensures Live(H, d) && forall y :: y in rest ==> Apart(rest[y], d)
    ensures d.acc.Root != null && RecordOf(d) == rec == Filled(H, d)
  {
    assert forall y :: y in rest ==> rest[y].acc != d.acc;
    hide Live, Filled, AllLive, AllApart, Records, AllBuilt;
    rec := FillLive(H, d);
    StillCached(H, rest);
  }

  lemma Replaced<K, V>(m: map<K, V>, k: K, v: V)
    ensures (m - {k})[k := v] == m[k := v]
  {
  }

  /** So it can stand under `z`, if its object is new or the one that stands there. */
  method FillIn(H: Hash, m: map<string, DSA>, z: string, d: DSA) returns (rec: Record)
    requires AllLive(H, m) && AllApart(m) && AllBuilt(m) && d.acc !in Accs(m - {z}) && ListForm(d.subzones)
    modifies d.acc
    ensures AllLive(H, m[z := d]) && AllApart(m[z := d]) && AllBuilt(m[z := d])
    ensures rec == Filled(H, d) && Records(m[z := d]) == old(Records(m))[z := rec]
  {
    FewerLive(H, m, z);
    FewerRecords(m, z);
    ghost var rest := m - {z};
    Replaced(Records(m), z, Filled(H, d));
    Replaced(m, z, d);
    hide AllLive, AllApart, Records, AllBuilt, Live, Filled, Accs, RecordOf, ListForm;
    rec := FillApart(H, d, rest);
    OneMoreLive(H, rest, z, d);
    OneMoreRecord(rest, z, d);
  }

  lemma EvictedLive(H: Hash, m: map<string, DSA>, a: Add)
    requires AllLive(H, m) && AllApart(m)
    ensures AllLive(H, Evicted(m, a)) && AllApart(Evicted(m, a)) && AllBuilt(m) && AllBuilt(Evicted(m, a))
    ensures Accs(Evicted(m, a)) <= Accs(m)
  {
    FewerLive(H, m, a.evict);
    AllLiveIsBuilt(H, m);
    AllLiveIsBuilt(H, Evicted(m, a));
  }

  lemma EvictedRecords(m: map<string, DSA>, a: Add)
    requires AllBuilt(m) && AllBuilt(Evicted(m, a))
    ensures Records(Evicted(m, a)) == Evicted(Records(m), a)
  {
    assert Records(m).Keys == m.Keys;
    FewerRecords(m, a.evict);
  }

  /** What the parent's accumulator is to hold is what the specification says, whether its object is new */
  lemma NewParent(H: Hash, m: map<string, DSA>, a: Add)
    requires AllBuilt(m) && a.pZone !in m
    ensures var content := Insert([], ChildZone(a));
      && ListForm(content)
      && Record(a.pZone, a.pAlv, a.exp, a.pCert, TreeOf(H, content), content) == ParentRecord(H, Records(m), a)
  {
    InsertWellFormed([], ChildZone(a));
  }

  /** or the cached one. */
  lemma OldParent(H: Hash, m: map<string, DSA>, a: Add)
    requires AllLive(H, m) && AllApart(m) && AllBuilt(m) && a.pZone in m
    ensures var d := m[a.pZone];
      && d.acc !in Accs(m - {a.pZone})
      && (|d.subzones| <= 1 || !StartsAfter(d.subzones[0], ChildZone(a)))
      && ListForm(Insert(d.subzones, ChildZone(a)))
      && Filled(H, d.(subzones := Insert(d.subzones, ChildZone(a)))) == ParentRecord(H, Records(m), a)
  {
    FewerLive(H, m, a.pZone);
    LiveIsBuilt(H, m[a.pZone]);
    InsertWellFormed(m[a.pZone].subzones, ChildZone(a));
    hide Insert, ListForm, TreeOf, AllLive, AllApart, Live, Accs;
  }

  lemma GrowAccs(m: map<string, DSA>, z: string, d: DSA)
    ensures Accs(m[z := d]) <= Accs(m) + {d.acc}
    ensures z in m ==> m[z].acc in Accs(m)
  {
  }

  class DSALog {
    var zoneToDSA: map<string, DSA>
    var db: map<string, Record>
    var T: nat

    /** Cached accumulators are live and share no object with one another. */
    ghost predicate Valid(H: Hash)
      reads this, Accs(zoneToDSA), AccNodes(zoneToDSA)
    {
      AllWellFormed(H, db) && AllBuilt(zoneToDSA) && AllLive(H, zoneToDSA) && AllApart(zoneToDSA)
    }

    /** The cache, each live object read as the record it denotes, and the database. */
    ghost function Contents(): View
      requires AllBuilt(zoneToDSA)
      reads this, Accs(zoneToDSA)
    {
      View(Records(zoneToDSA), db)
    }

    constructor ()
      ensures zoneToDSA == map[] && db == map[] && T == 0
      ensures forall H :: Valid(H)
    {
      zoneToDSA, db, T := map[], map[], 0;
    }

    /** Answers from the live object if there is one; otherwise reads a new one from the database and relinks it.
        While cache and database agree the two answers are the same. */
    method DSProofRet(H: Hash, pZone: string, cZone: string, ptype: ProofType) returns (r: Answer)
      requires Valid(H)
      ensures r == AnswerFor(Lookup(Contents(), pZone), cZone, ptype, T)
      ensures Coherent(Contents()) ==> r == AnswerFor(Lookup(View(map[], db), pZone), cZone, ptype, T)
    {
      if pZone in zoneToDSA {
        r := Prove(H, zoneToDSA[pZone], cZone, ptype, T);
      } else if pZone in db {
        var d := db[pZone];
        TreeOfIsSound(H, d.subzones);
        var acc := Read(H, d.tree);
        r := Prove(H, DSA(d.zone, d.alv, d.exp, d.cert, acc, d.subzones), cZone, ptype, T);
      } else {
        r := NoParent;
      }
    }

    /** A write to the database. */
    method SetRecord(H: Hash, z: string, rec: Record)
      requires Valid(H) && WellFormed(H, rec)
      modifies this`db
      ensures Valid(H) && Contents() == old(Contents()).(db := old(db)[z := rec])
    {
      hide AllLive, AllApart, AllWellFormed, Records, AllBuilt, WellFormed;
      PutWellFormed(H, db, z, rec);
      db := db[z := rec];
      StillCached(H, zoneToDSA);
    }

    method Store(H: Hash, m: map<string, DSA>)
      requires AllWellFormed(H, db) && AllLive(H, m) && AllApart(m) && AllBuilt(m)
      modifies this`zoneToDSA
      ensures Valid(H) && zoneToDSA == m && Records(m) == old(Records(m))
    {
      hide AllLive, AllApart, AllWellFormed, Records, AllBuilt;
      zoneToDSA := m;
      StillCached(H, m);
    }

    /** The accumulator `d` is filled and takes its place in the cache; its object is new or the one cached there. */
    method Install(H: Hash, z: string, d: DSA) returns (rec: Record)
      requires Valid(H) && d.acc !in Accs(zoneToDSA - {z}) && ListForm(d.subzones)
      modifies this`zoneToDSA, d.acc
      ensures Valid(H) && rec == Filled(H, d) && Accs(zoneToDSA) <= old(Accs(zoneToDSA)) + {d.acc}
      ensures Contents().cache == old(Contents().cache)[z := rec]
    {
      hide AllLive, AllApart, AllWellFormed, Records, AllBuilt, Accs, ListForm, Filled;
      GrowAccs(zoneToDSA, z, d);
      rec := FillIn(H, zoneToDSA, z, d);
      Store(H, zoneToDSA[z := d]);
    }

    method InstallNew(H: Hash, zone: string, alv: nat, exp: int, cert: string, content: seq<LeafContent>)
      returns (rec: Record)
      requires Valid(H) && ListForm(content)
      modifies this`zoneToDSA
      ensures Valid(H) && rec == Record(zone, alv, exp, cert, TreeOf(H, content), content)
      ensures forall acc :: acc in Accs(zoneToDSA) ==> acc in old(Accs(zoneToDSA)) || fresh(acc)
      ensures Contents().cache == old(Contents().cache)[zone := rec]
    {
      hide AllLive, AllApart, AllWellFormed, Records, AllBuilt, ListForm, TreeOf;
      var acc := new MerkleTree();
      assert acc !in Accs(zoneToDSA - {zone});
      hide Accs;
      StillCached(H, zoneToDSA);
      rec := Install(H, zone, DSA(zone, alv, exp, cert, acc, content));
    }

    /** A full cache loses one entry. */
    method MakeRoom(H: Hash, a: Add)
      requires Valid(H) && (|zoneToDSA| > CACHE_MAX_SIZE ==> a.evict in zoneToDSA)
      modifies this`zoneToDSA
      ensures Valid(H) && Accs(zoneToDSA) <= old(Accs(zoneToDSA))
      ensures Contents() == old(Contents()).(cache := Evicted(old(Contents().cache), a))
    {
      hide AllLive, AllApart, AllWellFormed, Records, AllBuilt, Accs, Evicted;
      EvictedLive(H, zoneToDSA, a);
      EvictedRecords(zoneToDSA, a);
      Store(H, Evicted(zoneToDSA, a));
    }

    /** The parent gets a new accumulator if it is not cached; */
    method AddParent(H: Hash, a: Add) returns (rec: Record)
      requires Valid(H) && a.pZone !in zoneToDSA
      modifies this`zoneToDSA
      ensures Valid(H) && forall acc :: acc in Accs(zoneToDSA) ==> acc in old(Accs(zoneToDSA)) || fresh(acc)
      ensures rec == ParentRecord(H, old(Contents().cache), a)
      ensures Contents().cache == old(Contents().cache)[a.pZone := rec]
    {
      hide AllLive, AllApart, AllWellFormed, Records, AllBuilt, Accs, ListForm, TreeOf, ParentRecord, Insert;
      NewParent(H, zoneToDSA, a);
      var content := InsertNewDSLeafZone([], ChildZone(a));
      StillCached(H, zoneToDSA);
      rec := InstallNew(H, a.pZone, a.pAlv, a.exp, a.pCert, content);
    }

    /** otherwise the cached object is rebuilt in place. */
    method RebuildParent(H: Hash, a: Add) returns (rec: Record)
      requires Valid(H) && a.pZone in zoneToDSA
      modifies this`zoneToDSA, zoneToDSA[a.pZone].acc
      ensures Valid(H) && Accs(zoneToDSA) <= old(Accs(zoneToDSA))
      ensures rec == ParentRecord(H, old(Contents().cache), a)
      ensures Contents().cache == old(Contents().cache)[a.pZone := rec]
    {
      hide AllLive, AllApart, AllWellFormed, Records, AllBuilt, Accs, ListForm, Filled, ParentRecord, Insert;
      OldParent(H, zoneToDSA, a);
      GrowAccs(zoneToDSA, a.pZone, zoneToDSA[a.pZone]);
      var d := zoneToDSA[a.pZone];
      var content := InsertNewDSLeafZone(d.subzones, ChildZone(a));
      StillCached(H, zoneToDSA);
      rec := Install(H, a.pZone, d.(subzones := content));
    }

    method UpdateParent(H: Hash, a: Add) returns (rec: Record)
      requires Valid(H)
      modifies this`zoneToDSA, Accs(zoneToDSA)
      ensures Valid(H) && forall acc :: acc in Accs(zoneToDSA) ==> acc in old(Accs(zoneToDSA)) || fresh(acc)
      ensures rec == ParentRecord(H, old(Contents().cache), a)
      ensures Contents().cache == old(Contents().cache)[a.pZone := rec]
    {
      if a.pZone !in zoneToDSA {
        hide *;
        rec := AddParent(H, a);
      } else {
        GrowAccs(zoneToDSA, a.pZone, zoneToDSA[a.pZone]);
        hide *;
        rec := RebuildParent(H, a);
      }
    }

    /** Adds a delegation to the parent's accumulator and gives the child an empty one. A full cache first
        loses one entry. A failed write ends the call with cache and database as they are then. */
    method AddDelegationStatus(H: Hash, a: Add, w1: bool, w2: bool) returns (ok: bool)
      requires Valid(H) && (|zoneToDSA| > CACHE_MAX_SIZE ==> a.evict in zoneToDSA)
      modifies this`zoneToDSA, this`db, Accs(zoneToDSA)
      ensures Valid(H) && forall acc :: acc in Accs(zoneToDSA) ==> acc in old(Accs(zoneToDSA)) || fresh(acc)
      ensures Contents() == Added(H, old(Contents()), a, w1, w2)
      ensures ok <==> w1 && w2
      ensures ok && Coherent(old(Contents())) ==> Coherent(Contents())
    {
      hide AllLive, AllApart, AllWellFormed, Records, AllBuilt, Accs, ListForm, ParentRecord, Evicted, TreeOf;
      AllLiveIsBuilt(H, zoneToDSA);
      AddedWellFormed(H, Contents(), a, w1, w2);
      ParentWellFormed(H, Evicted(Contents().cache, a), a);
      ChildWellFormed(H, a);
      if Coherent(Contents()) { AddedCoherent(H, Contents(), a, true, true); }
      hide Coherent;
      MakeRoom(H, a);
      var parent := UpdateParent(H, a);
      if !w1 {
        return false;
      }
      SetRecord(H, a.pZone, parent);
      var child := InstallNew(H, a.cZone, a.cAlv, 0, a.cCert, [Total]);
      if !w2 {
        return false;
      }
      SetRecord(H, a.cZone, child);
      return true;
    }
  }

  // ---- over whole runs ----

  function Run(H: Hash, v: View, adds: seq<Add>): View
    decreases |adds|
  {
    if adds == [] then v else Added(H, Run(H, v, adds[..|adds| - 1]), adds[|adds| - 1], true, true)
  }

  lemma {:induction false} RunKeeps(H: Hash, v: View, adds: seq<Add>)
    requires Coherent(v) && AllWellFormed(H, v.cache) && AllWellFormed(H, v.db)
    ensures var v' := Run(H, v, adds); Coherent(v') && AllWellFormed(H, v'.cache) && AllWellFormed(H, v'.db)
    decreases |adds|
  {
    if adds != [] {
      var init, a := adds[..|adds| - 1], adds[|adds| - 1];
      RunKeeps(H, v, init);
      hide Added, Coherent, AllWellFormed;
      AddedStaysCoherent(H, Run(H, v, init), a);
      AddedWellFormed(H, Run(H, v, init), a, true, true);
    }
  }

  lemma AddedStaysCoherent(H: Hash, v: View, a: Add)
    requires Coherent(v)
    ensures Coherent(Added(H, v, a, true, true))
  {
    AddedCoherent(H, v, a, true, true);
  }

  /** In every state reached from the empty log while all writes succeed, whatever is evicted, the answer
      for any zone is the one given with an empty cache. */
  lemma CacheIsTransparent(H: Hash, adds: seq<Add>, zone: string, name: string, ptype: ProofType, epoch: nat)
    ensures var v := Run(H, View(map[], map[]), adds);
      AnswerFor(Lookup(v, zone), name, ptype, epoch) == AnswerFor(Lookup(View(map[], v.db), zone), name, ptype, epoch)
  {
    RunKeeps(H, View(map[], map[]), adds);
  }

  /** The delegated names that an accumulator lists. */
  function Children(subzones: seq<LeafContent>): set<string> {
    set c | c in subzones && c.start.zoneType == Existing :: c.start.zone
  }

  lemma {:induction false} ChainStartsAt(from: LeafZone, zs: seq<LeafZone>, z: LeafZone) returns (c: LeafContent)
    requires z in zs
    ensures c in Chain(from, zs) && c.start == z
    decreases zs
  {
    if z == zs[0] {
      c := Chain(zs[0], zs[1..])[0];
    } else {
      c := ChainStartsAt(zs[0], zs[1..], z);
    }
  }

  lemma ListChildren(lead: bool, zs: seq<LeafZone>)
    requires AllExisting(zs)
    ensures Children(LeafList(lead, zs)) == ZoneNames(zs)
  {
    var cs := LeafList(lead, zs);
    forall n | n in Children(cs) ensures n in ZoneNames(zs) {
      var c :| c in cs && c.start.zoneType == Existing && c.start.zone == n;
      ChainMember(NegInf, zs, c);
    }
    forall n | n in ZoneNames(zs) ensures n in Children(cs) {
      var z :| z in zs && z.zone == n;
      var c := ChainStartsAt(NegInf, zs, z);
      assert c in cs;
    }
  }

  lemma InsertChildren(subzones: seq<LeafContent>, z: LeafZone)
    requires z.zoneType == Existing
    requires subzones == [] || ListForm(subzones)
    ensures Children(Insert(subzones, z)) == Children(subzones) + {z.zone}
  {
    var lead, zs;
    if subzones == [] {
      lead, zs := false, [];
    } else {
      lead, zs :| Delegated(zs) && subzones == LeafList(lead, zs);
    }
    assert subzones == LeafList(lead, zs);
    InsertKeepsChain(lead, zs, z);
    PlacedMembers(zs, z);
    ListChildren(lead, zs);
    ListChildren(lead, LeafChain.Placed(zs, z));
  }

  /** For a record of the log the proof of presence succeeds exactly for its children and the empty name, the proof of
      absence exactly for the other names; either proof folds to the root digest that the answer reports. */
  lemma AnswersAreExact(H: Hash, r: Record, name: string, epoch: nat)
    requires WellFormed(H, r)
    ensures AnswerFor(Some(r), name, Presence, epoch).Ok? <==> name == "" || name in Children(r.subzones)
    ensures AnswerFor(Some(r), name, Absence, epoch).Ok? <==> name != "" && name !in Children(r.subzones)
    ensures forall ptype :: AnswerFor(Some(r), name, ptype, epoch).Ok? ==>
      var dsp := AnswerFor(Some(r), name, ptype, epoch).dsp;
      Fold(H, LeafHash(H, dsp.proof.content), dsp.proof.path) == dsp.roothash && InRange(dsp.proof, name)
  {
    var lead, zs :| Delegated(zs) && r.subzones == LeafList(lead, zs);
    ListChildren(lead, zs);
    RecordProofs(H, lead, zs, r, name);
    AnswerTypes(r.tree, Leaves(r.tree), name);
    hide WellFormed, Children, PresenceAnswer, AbsenceAnswer, Fold, Leaves, LeafHash, Covers;
  }

  lemma RecordProofs(H: Hash, lead: bool, zs: seq<LeafZone>, r: Record, name: string)
    requires Delegated(zs) && r.subzones == LeafList(lead, zs) && r.subzones != [] && r.tree == TreeOf(H, r.subzones)
    ensures PresenceAnswer(r.tree, Leaves(r.tree), name).Some? <==> name == "" || name in ZoneNames(zs)
    ensures AbsenceAnswer(r.tree, Leaves(r.tree), name).Some? <==> !(name == "" || name in ZoneNames(zs))
    ensures forall p :: p == PresenceAnswer(r.tree, Leaves(r.tree), name) && p.Some? ==>
      p.value.content.start.zone == name && Fold(H, LeafHash(H, p.value.content), p.value.path) == r.tree.hash
    ensures forall p :: p == AbsenceAnswer(r.tree, Leaves(r.tree), name) && p.Some? ==>
      Covers(p.value.content, name) && Fold(H, LeafHash(H, p.value.content), p.value.path) == r.tree.hash
  {
    TreeOfShape(H, r.subzones);
    LeavesRepeat(H, r.subzones);
    hide TreeOf, LeafList, Leaves, Perfect, PresenceAnswer, AbsenceAnswer, Fold;
    ProversAreExact(H, lead, zs, r.tree, Leaves(r.tree), name);
  }

  lemma AnswerTypes(t: Tree, ls: seq<LeafContent>, name: string)
    ensures PresenceAnswer(t, ls, name).Some? ==> PresenceAnswer(t, ls, name).value.ptype == Presence
    ensures AbsenceAnswer(t, ls, name).Some? ==> AbsenceAnswer(t, ls, name).value.ptype == Absence
  {
  }

  /** A cached zone survives the making of room: the cache is not over its limit, or another key is met first. */
  ghost predicate Stays(v: View, a: Add, z: string) {
    z in v.cache && (|v.cache| <= CACHE_MAX_SIZE || z != a.evict)
  }

  /** The parent's accumulator afterwards: it keeps its data and gains the child, or is new and has only the child. */
  ghost predicate ParentIs(H: Hash, v: View, a: Add, r: Record) {
    && WellFormed(H, r)
    && if Stays(v, a, a.pZone) then
         var old_ := v.cache[a.pZone];
         && r.zone == old_.zone && r.alv == old_.alv && r.exp == old_.exp && r.cert == old_.cert
         && Children(r.subzones) == Children(old_.subzones) + {a.cZone}
       else
         && r.zone == a.pZone && r.alv == a.pAlv && r.exp == a.exp && r.cert == a.pCert
         && Children(r.subzones) == {a.cZone}
  }

  /** The child's accumulator has no children. */
  ghost predicate ChildIs(H: Hash, a: Add, r: Record) {
    && WellFormed(H, r) && r.zone == a.cZone && r.alv == a.cAlv && r.exp == 0 && r.cert == a.cCert
    && Children(r.subzones) == {}
  }

  lemma EvictedExact(v: View, a: Add)
    ensures forall z :: z in Evicted(v.cache, a) <==> Stays(v, a, z)
    ensures forall z :: Stays(v, a, z) ==> Evicted(v.cache, a)[z] == v.cache[z]
  {
  }

  lemma ParentFields(H: Hash, cache: map<string, Record>, a: Add)
    ensures var r := ParentRecord(H, cache, a);
      if a.pZone in cache then
        && r.zone == cache[a.pZone].zone && r.alv == cache[a.pZone].alv
        && r.exp == cache[a.pZone].exp && r.cert == cache[a.pZone].cert
      else r.zone == a.pZone && r.alv == a.pAlv && r.exp == a.exp && r.cert == a.pCert
  {
    hide Insert, TreeOf;
  }

  lemma ParentExact(H: Hash, v: View, a: Add)
    requires AllWellFormed(H, v.cache)
    ensures ParentIs(H, v, a, ParentRecord(H, Evicted(v.cache, a), a))
  {
    var cache := Evicted(v.cache, a);
    EvictedExact(v, a);
    hide Evicted, ParentRecord, WellFormed, Children;
    assert AllWellFormed(H, cache);
    hide AllWellFormed, Stays;
    ParentWellFormed(H, cache, a);
    ParentFields(H, cache, a);
    ParentChildren(H, cache, a);
  }

  lemma ChildExact(H: Hash, a: Add)
    ensures ChildIs(H, a, ChildRecord(H, a))
  {
    ChildWellFormed(H, a);
    NoChildren();
    hide Children, WellFormed, TreeOf;
  }

  /** A map of records after the parent's record `p` and, if `both`, the child's record `c` are put into `m`. */
  ghost predicate IsPut(m: map<string, Record>, a: Add, p: Record, c: Record, both: bool, m': map<string, Record>) {
    && (forall z :: z in m' <==> z in m || z == a.pZone || (both && z == a.cZone))
    && (forall z :: z in m && z != a.pZone && !(both && z == a.cZone) ==> m'[z] == m[z])
    && ((both && a.pZone == a.cZone) || m'[a.pZone] == p)
    && (both ==> m'[a.cZone] == c)
  }

  lemma AddedPuts(H: Hash, v: View, a: Add, w1: bool, w2: bool)
    ensures var v' := Added(H, v, a, w1, w2);
      var p, c := ParentRecord(H, Evicted(v.cache, a), a), ChildRecord(H, a);
      && IsPut(Evicted(v.cache, a), a, p, c, w1, v'.cache)
      && if w1 then IsPut(v.db, a, p, c, w2, v'.db) else v'.db == v.db
  {
    hide ParentRecord, ChildRecord, Evicted;
  }

  /** One call, whichever writes succeed: zone by zone, what is in the cache afterwards. A cache that is not over its
      limit loses nothing, and a larger one the key met first. */
  lemma AddedIsExact(H: Hash, v: View, a: Add, w1: bool, w2: bool)
    requires AllWellFormed(H, v.cache)
    ensures var cache := Added(H, v, a, w1, w2).cache;
      && (forall z :: z in cache <==> Stays(v, a, z) || z == a.pZone || (w1 && z == a.cZone))
      && (forall z :: Stays(v, a, z) && z != a.pZone && !(w1 && z == a.cZone) ==> cache[z] == v.cache[z])
      && ((w1 && a.pZone == a.cZone) || ParentIs(H, v, a, cache[a.pZone]))
      && (w1 ==> ChildIs(H, a, cache[a.cZone]))
  {
    ParentExact(H, v, a);
    ChildExact(H, a);
    EvictedExact(v, a);
    hide Added, ParentIs, ChildIs, ParentRecord, ChildRecord, AllWellFormed, Evicted;
    AddedPuts(H, v, a, w1, w2);
  }

  /** And what is in the database afterwards. */
  lemma AddedIsStored(H: Hash, v: View, a: Add, w1: bool, w2: bool)
    requires AllWellFormed(H, v.cache)
    ensures var db := Added(H, v, a, w1, w2).db;
      && (forall z :: z in db <==> z in v.db || (w1 && z == a.pZone) || (w1 && w2 && z == a.cZone))
      && (forall z :: z in v.db && !(w1 && z == a.pZone) && !(w1 && w2 && z == a.cZone) ==> db[z] == v.db[z])
      && (w1 && !(w2 && a.pZone == a.cZone) ==> ParentIs(H, v, a, db[a.pZone]))
      && (w1 && w2 ==> ChildIs(H, a, db[a.cZone]))
  {
    ParentExact(H, v, a);
    ChildExact(H, a);
    hide Added, ParentIs, ChildIs, ParentRecord, ChildRecord, AllWellFormed, Evicted;
    AddedPuts(H, v, a, w1, w2);
  }

  // ---- who is listed, over whole runs ----

  const NO_LOG := View(map[], map[])

  /** The log after the first `k` of the calls. */
  ghost function After(H: Hash, adds: seq<Add>, k: nat): View
    requires k <= |adds|
  {
    Run(H, NO_LOG, adds[..k])
  }

  predicate Mentions(a: Add, z: string) {
    a.pZone == z || a.cZone == z
  }

  ghost predicate Mentioned(adds: seq<Add>, k: nat, z: string)
    requires k <= |adds|
  {
    exists i: nat :: i < k && Mentions(adds[i], z)
  }

  /** Call `j` finds the cache over its limit and drops `z`. */
  ghost predicate Drops(H: Hash, adds: seq<Add>, j: nat, z: string)
    requires j < |adds|
  {
    adds[j].evict == z && |After(H, adds, j).cache| > CACHE_MAX_SIZE
  }

  /** No call after call `i` and before call `k` drops `z`. */
  ghost predicate Kept(H: Hash, adds: seq<Add>, i: nat, k: nat, z: string)
    requires k <= |adds|
  {
    forall j: nat :: i < j < k ==> !Drops(H, adds, j, z)
  }

  /** `z` is mentioned and not dropped after that. */
  ghost predicate ToBeCached(H: Hash, adds: seq<Add>, k: nat, z: string)
    requires k <= |adds|
  {
    exists i: nat :: i < k && Mentions(adds[i], z) && Kept(H, adds, i, k, z)
  }

  /** Call `j` drops `z`, and this or a later call takes `z` up again as a parent. */
  ghost predicate Restarts(H: Hash, adds: seq<Add>, j: nat, k: nat, z: string)
    requires j < k <= |adds|
  {
    Drops(H, adds, j, z) && exists m: nat :: j <= m < k && adds[m].pZone == z
  }

  /** Call `i` adds `n` to `z`; then `z` is neither added as a child itself nor restarted. */
  ghost predicate Lists(H: Hash, adds: seq<Add>, k: nat, z: string, n: string, i: nat)
    requires k <= |adds|
  {
    && i < k && adds[i].pZone == z && adds[i].cZone == n
    && NeverChild(adds, i, k, z) && NeverRestarts(H, adds, i, k, z)
  }

  ghost predicate NeverChild(adds: seq<Add>, i: nat, k: nat, z: string)
    requires k <= |adds|
  {
    forall j: nat :: i <= j < k ==> adds[j].cZone != z
  }

  ghost predicate NeverRestarts(H: Hash, adds: seq<Add>, i: nat, k: nat, z: string)
    requires k <= |adds|
  {
    forall j: nat :: i < j < k ==> !Restarts(H, adds, j, k, z)
  }

  ghost predicate ToBeListed(H: Hash, adds: seq<Add>, k: nat, z: string, n: string)
    requires k <= |adds|
  {
    exists i: nat :: Lists(H, adds, k, z, n, i)
  }

  lemma KeptStep(H: Hash, adds: seq<Add>, i: nat, k: nat, z: string)
    requires i < k < |adds|
    ensures Kept(H, adds, i, k + 1, z) <==> Kept(H, adds, i, k, z) && !Drops(H, adds, k, z)
  {
    hide Drops;
  }

  lemma CachedStep(H: Hash, adds: seq<Add>, k: nat, z: string)
    requires k < |adds|
    ensures ToBeCached(H, adds, k + 1, z) <==>
      Mentions(adds[k], z) || (ToBeCached(H, adds, k, z) && !Drops(H, adds, k, z))
  {
    hide Drops, Mentions;
    assert Kept(H, adds, k, k + 1, z);
    forall i: nat | i < k
      ensures Kept(H, adds, i, k + 1, z) <==> Kept(H, adds, i, k, z) && !Drops(H, adds, k, z)
    {
      KeptStep(H, adds, i, k, z);
    }
    hide Kept;
  }

  lemma RestartsStep(H: Hash, adds: seq<Add>, j: nat, k: nat, z: string)
    requires j < k < |adds|
    ensures Restarts(H, adds, j, k + 1, z) <==>
      Restarts(H, adds, j, k, z) || (Drops(H, adds, j, z) && adds[k].pZone == z)
  {
    hide Drops;
    if adds[k].pZone == z {
      var m := k;
      assert j <= m < k + 1 && adds[m].pZone == z;
    }
  }

  lemma NeverRestartsStep(H: Hash, adds: seq<Add>, i: nat, k: nat, z: string)
    requires i < k < |adds|
    ensures NeverRestarts(H, adds, i, k + 1, z) <==>
      NeverRestarts(H, adds, i, k, z) && (adds[k].pZone == z ==> Kept(H, adds, i, k + 1, z))
  {
    hide Drops;
    forall j: nat | i < j < k
      ensures Restarts(H, adds, j, k + 1, z) <==>
        Restarts(H, adds, j, k, z) || (Drops(H, adds, j, z) && adds[k].pZone == z)
    {
      RestartsStep(H, adds, j, k, z);
    }
    assert Restarts(H, adds, k, k + 1, z) <==> Drops(H, adds, k, z) && adds[k].pZone == z;
    hide Restarts;
  }

  /** An entry stands unless the zone is added as a child; where the zone is a parent, exactly while it stays cached. */
  lemma ListsStep(H: Hash, adds: seq<Add>, k: nat, z: string, n: string, i: nat)
    requires i < k < |adds|
    ensures Lists(H, adds, k + 1, z, n, i) <==>
      && Lists(H, adds, k, z, n, i) && adds[k].cZone != z
      && (adds[k].pZone == z ==> Kept(H, adds, i, k + 1, z))
  {
    NeverRestartsStep(H, adds, i, k, z);
    hide NeverRestarts, Kept;
  }

  lemma ListsLast(H: Hash, adds: seq<Add>, k: nat, z: string, n: string)
    requires k < |adds|
    ensures Lists(H, adds, k + 1, z, n, k) <==> adds[k].pZone == z && adds[k].cZone == n && n != z
  {
    hide NeverRestarts;
    assert NeverRestarts(H, adds, k, k + 1, z) by { NoneRestarts(H, adds, k, z); }
  }

  lemma NoneRestarts(H: Hash, adds: seq<Add>, k: nat, z: string)
    requires k < |adds|
    ensures NeverRestarts(H, adds, k, k + 1, z)
  {
  }

  /** What is listed for a zone in the cache has not been dropped. */
  lemma ListedAndCached(H: Hash, adds: seq<Add>, k: nat, z: string, n: string, i: nat)
    requires k <= |adds| && Lists(H, adds, k, z, n, i)
    ensures ToBeCached(H, adds, k, z) <==> Kept(H, adds, i, k, z)
  {
    hide Drops;
    if ToBeCached(H, adds, k, z) {
      var m: nat :| m < k && Mentions(adds[m], z) && Kept(H, adds, m, k, z);
      forall j: nat | i < j < k ensures !Drops(H, adds, j, z) {
        assert j <= m ==> adds[m].pZone == z;
        assert !Restarts(H, adds, j, k, z);
      }
    }
    assert Mentions(adds[i], z);
  }

  lemma ListsBound(H: Hash, adds: seq<Add>, k: nat, z: string, n: string, i: nat)
    requires k <= |adds| && Lists(H, adds, k, z, n, i)
    ensures i < k
  {
  }

  /** Which earlier entries stand after call `k`. */
  lemma ListsFrom(H: Hash, adds: seq<Add>, k: nat, z: string, n: string, i: nat)
    requires i < k < |adds|
    ensures Lists(H, adds, k + 1, z, n, i) <==>
      && Lists(H, adds, k, z, n, i) && adds[k].cZone != z
      && (adds[k].pZone == z ==> ToBeCached(H, adds, k, z) && !Drops(H, adds, k, z))
  {
    ListsStep(H, adds, k, z, n, i);
    KeptStep(H, adds, i, k, z);
    hide Lists, Kept, Drops, ToBeCached;
    if Lists(H, adds, k, z, n, i) {
      ListedAndCached(H, adds, k, z, n, i);
    }
  }

  lemma ListedStep(H: Hash, adds: seq<Add>, k: nat, z: string, n: string)
    requires k < |adds|
    ensures ToBeListed(H, adds, k + 1, z, n) <==>
      && adds[k].cZone != z
      && if adds[k].pZone == z && !(ToBeCached(H, adds, k, z) && !Drops(H, adds, k, z)) then n == adds[k].cZone
         else ToBeListed(H, adds, k, z, n) || (adds[k].pZone == z && n == adds[k].cZone)
  {
    hide Drops, ToBeCached, Lists;
    ListsLast(H, adds, k, z, n);
    if ToBeListed(H, adds, k + 1, z, n) {
      var i: nat :| Lists(H, adds, k + 1, z, n, i);
      ListsBound(H, adds, k + 1, z, n, i);
      if i < k { ListsFrom(H, adds, k, z, n, i); }
    }
    if i: nat :| Lists(H, adds, k, z, n, i) {
      ListsBound(H, adds, k, z, n, i);
      ListsFrom(H, adds, k, z, n, i);
    }
  }

  /** What the records of `v` say about zone `z`, in terms of the calls. */
  ghost predicate Tells(H: Hash, adds: seq<Add>, k: nat, v: View, z: string)
    requires k <= |adds|
  {
    && (z in v.cache <==> ToBeCached(H, adds, k, z))
    && (z in v.db <==> Mentioned(adds, k, z))
    && (z in v.db ==> forall n :: n in Children(v.db[z].subzones) <==> ToBeListed(H, adds, k, z, n))
  }

  lemma StaysWhileKept(H: Hash, adds: seq<Add>, k: nat, v: View, z: string)
    requires k < |adds| && v == After(H, adds, k) && (z in v.cache <==> ToBeCached(H, adds, k, z))
    ensures Stays(v, adds[k], z) <==> ToBeCached(H, adds, k, z) && !Drops(H, adds, k, z)
  {
    hide Run, ToBeCached;
  }

  lemma ListStep(H: Hash, adds: seq<Add>, k: nat, v: View, z: string, n: string)
    requires k < |adds| && v == After(H, adds, k) && Tells(H, adds, k, v, z)
    requires Coherent(v) && AllWellFormed(H, v.cache)
    ensures var v' := Added(H, v, adds[k], true, true);
      z in v'.db ==> (n in Children(v'.db[z].subzones) <==> ToBeListed(H, adds, k + 1, z, n))
  {
    var a := adds[k];
    hide Run, Added, ToBeCached, AllWellFormed, Drops, Mentioned, ToBeListed, Children, WellFormed, Stays, After;
    StaysWhileKept(H, adds, k, v, z);
    AddedIsStored(H, v, a, true, true);
    ListedStep(H, adds, k, z, n);
    if ToBeListed(H, adds, k, z, n) { ListedMeansMentioned(H, adds, k, z, n); }
    if z == a.cZone {
    } else if z == a.pZone {
      if Stays(v, a, z) {
        assert z in v.cache by { StaysCached(v, a, z); }
      }
    }
  }

  lemma StaysCached(v: View, a: Add, z: string)
    requires Stays(v, a, z)
    ensures z in v.cache
  {
  }

  lemma ListedMeansMentioned(H: Hash, adds: seq<Add>, k: nat, z: string, n: string)
    requires k <= |adds| && ToBeListed(H, adds, k, z, n)
    ensures Mentioned(adds, k, z)
  {
    hide NeverChild, NeverRestarts;
    var i: nat :| Lists(H, adds, k, z, n, i);
    assert Mentions(adds[i], z);
  }

  lemma CacheStep(H: Hash, adds: seq<Add>, k: nat, v: View, z: string)
    requires k < |adds| && v == After(H, adds, k) && (z in v.cache <==> ToBeCached(H, adds, k, z))
    requires AllWellFormed(H, v.cache)
    ensures z in Added(H, v, adds[k], true, true).cache <==> ToBeCached(H, adds, k + 1, z)
  {
    hide Run, Added, ToBeCached, AllWellFormed, Drops, Stays, After, ParentIs, ChildIs;
    StaysWhileKept(H, adds, k, v, z);
    AddedIsExact(H, v, adds[k], true, true);
    CachedStep(H, adds, k, z);
  }

  lemma StoreStep(H: Hash, adds: seq<Add>, k: nat, v: View, z: string)
    requires k < |adds| && (z in v.db <==> Mentioned(adds, k, z)) && AllWellFormed(H, v.cache)
    ensures z in Added(H, v, adds[k], true, true).db <==> Mentioned(adds, k + 1, z)
  {
    hide Added, AllWellFormed, Mentioned, ParentIs, ChildIs;
    AddedIsStored(H, v, adds[k], true, true);
    MentionedStep(adds, k, z);
  }

  lemma TellsStep(H: Hash, adds: seq<Add>, k: nat, v: View, z: string)
    requires k < |adds| && v == After(H, adds, k) && Tells(H, adds, k, v, z)
    requires Coherent(v) && AllWellFormed(H, v.cache)
    ensures Tells(H, adds, k + 1, Added(H, v, adds[k], true, true), z)
  {
    hide Run, Added, ToBeCached, AllWellFormed, Mentioned, ToBeListed, Children, After, Coherent;
    CacheStep(H, adds, k, v, z);
    StoreStep(H, adds, k, v, z);
    forall n
      ensures var v' := Added(H, v, adds[k], true, true);
        z in v'.db ==> (n in Children(v'.db[z].subzones) <==> ToBeListed(H, adds, k + 1, z, n))
    {
      hide Tells;
      ListStep(H, adds, k, v, z, n);
    }
  }

  lemma MentionedStep(adds: seq<Add>, k: nat, z: string)
    requires k < |adds|
    ensures Mentioned(adds, k + 1, z) <==> Mentioned(adds, k, z) || Mentions(adds[k], z)
  {
    hide Mentions;
  }

  lemma AfterNext(H: Hash, adds: seq<Add>, k: nat)
    requires k < |adds|
    ensures After(H, adds, k + 1) == Added(H, After(H, adds, k), adds[k], true, true)
  {
    hide Added;
    assert adds[..k + 1][..k] == adds[..k];
  }

  lemma AfterIsSound(H: Hash, adds: seq<Add>, k: nat)
    requires k <= |adds|
    ensures var v := After(H, adds, k); Coherent(v) && AllWellFormed(H, v.cache) && AllWellFormed(H, v.db)
  {
    hide Run;
    RunKeeps(H, NO_LOG, adds[..k]);
  }

  lemma StartTells(H: Hash, adds: seq<Add>, z: string)
    ensures Tells(H, adds, 0, After(H, adds, 0), z)
  {
    hide Children;
  }

  lemma {:induction false} RunTells(H: Hash, adds: seq<Add>, k: nat, z: string)
    requires k <= |adds|
    ensures Tells(H, adds, k, After(H, adds, k), z)
  {
    hide After, Tells, Added, Coherent, AllWellFormed;
    if k == 0 {
      StartTells(H, adds, z);
    } else {
      RunTells(H, adds, k - 1, z);
      AfterIsSound(H, adds, k - 1);
      AfterNext(H, adds, k - 1);
      TellsStep(H, adds, k - 1, After(H, adds, k - 1), z);
    }
  }

  /** Every run from the empty log, whatever is evicted, while all writes succeed: the log knows the zones mentioned,
      proves presence for the names to be listed and the empty name, and absence for the others. */
  lemma RunAnswers(H: Hash, adds: seq<Add>, z: string, n: string, epoch: nat)
    ensures var found, k := Lookup(Run(H, NO_LOG, adds), z), |adds|;
      && (found.Some? <==> Mentioned(adds, k, z))
      && (AnswerFor(found, n, Presence, epoch).Ok? <==>
            Mentioned(adds, k, z) && (n == "" || ToBeListed(H, adds, k, z, n)))
      && (AnswerFor(found, n, Absence, epoch).Ok? <==>
            Mentioned(adds, k, z) && n != "" && !ToBeListed(H, adds, k, z, n))
  {
    RunTells(H, adds, |adds|, z);
    RunKeeps(H, NO_LOG, adds);
    assert adds[..|adds|] == adds;
    var v := Run(H, NO_LOG, adds);
    hide Run, ToBeCached, ToBeListed, Mentioned, Children, WellFormed;
    if z in v.db {
      AnswersAreExact(H, v.db[z], n, epoch);
    }
  }

  /** The zones that the calls mention. */
  function Zones(adds: seq<Add>): set<string> {
    (set a | a in adds :: a.pZone) + (set a | a in adds :: a.cZone)
  }

  /** `n` was added to `z`, and `z` has not been added as a child since. */
  ghost predicate AddedSince(adds: seq<Add>, z: string, n: string) {
    exists i: nat :: i < |adds| && adds[i].pZone == z && adds[i].cZone == n && NeverChild(adds, i, |adds|, z)
  }

  lemma NothingDrops(H: Hash, adds: seq<Add>, j: nat, z: string)
    requires |Zones(adds)| <= CACHE_MAX_SIZE && j < |adds|
    ensures !Drops(H, adds, j, z)
  {
    var v := After(H, adds, j);
    forall x | x in v.cache ensures x in Zones(adds) {
      RunTells(H, adds, j, x);
      CachedIsMentioned(H, adds, j, x);
    }
    assert v.cache.Keys <= Zones(adds);
    FewerZones(v.cache.Keys, Zones(adds));
    hide After, Zones;
  }

  lemma {:induction false} FewerZones(a: set<string>, b: set<string>)
    requires a <= b
    ensures |a| <= |b|
  {
    if a != {} {
      var z :| z in a;
      FewerZones(a - {z}, b - {z});
    }
  }

  lemma CachedIsMentioned(H: Hash, adds: seq<Add>, k: nat, z: string)
    requires k <= |adds| && ToBeCached(H, adds, k, z)
    ensures z in Zones(adds)
  {
    hide Kept;
    var i: nat :| i < k && Mentions(adds[i], z) && Kept(H, adds, i, k, z);
    assert adds[i] in adds;
  }

  /** A run that never fills the cache: the names proved present in a zone are exactly those added to it since the zone
      was last added as a child. */
  lemma SmallRunLists(H: Hash, adds: seq<Add>, z: string, n: string)
    requires |Zones(adds)| <= CACHE_MAX_SIZE
    ensures ToBeListed(H, adds, |adds|, z, n) <==> AddedSince(adds, z, n)
  {
    var k := |adds|;
    forall i: nat ensures NeverRestarts(H, adds, i, k, z) {
      forall j: nat | i < j < k ensures !Restarts(H, adds, j, k, z) {
        NothingDrops(H, adds, j, z);
      }
    }
    hide NeverRestarts, NeverChild;
    if AddedSince(adds, z, n) {
      var i: nat :| i < k && adds[i].pZone == z && adds[i].cZone == n && NeverChild(adds, i, k, z);
      assert Lists(H, adds, k, z, n, i);
    }
  }

  lemma NoChildren()
    ensures Children([Total]) == {} == Children([])
  {
  }

  lemma ParentChildren(H: Hash, cache: map<string, Record>, a: Add)
    requires AllWellFormed(H, cache)
    ensures Children(ParentRecord(H, cache, a).subzones)
         == (if a.pZone in cache then Children(cache[a.pZone].subzones) else {}) + {a.cZone}
  {
    assert Children([]) == {};
    if a.pZone in cache {
      assert WellFormed(H, cache[a.pZone]);
      InsertChildren(cache[a.pZone].subzones, ChildZone(a));
    } else {
      InsertChildren([], ChildZone(a));
    }
  }
}
