/** Redis sorted sets, as far as the record store uses them. */
module SortedSets {
  import opened Primitives

  datatype Entry = Entry(score: int, member: nat)

  type Index = map<nat, int>
  type Indexes = map<string, Index>

  /** Reverse order: higher score first, then the greater member. */
  predicate Above(a: Entry, b: Entry) {
    a.score > b.score || (a.score == b.score && a.member > b.member)
  }

  predicate IsTop(s: set<Entry>, m: Entry) {
    m in s && forall x :: x in s && x != m ==> Above(m, x)
  }

  lemma {:induction false} TopExists(s: set<Entry>)
    requires s != {}
    ensures exists m :: IsTop(s, m)
  {
    var x :| x in s;
    assert forall y :: y in s ==> y == x || y in s - {x};
    if s - {x} == {} {
      assert IsTop(s, x);
    } else {
      TopExists(s - {x});
      var m :| IsTop(s - {x}, m);
      assert IsTop(s, if Above(x, m) then x else m);
    }
  }

  function Descending(s: set<Entry>): (r: seq<Entry>)
    ensures |r| == |s|
    ensures forall x :: x in r <==> x in s
    ensures forall i, j :: 0 <= i < j < |r| ==> Above(r[i], r[j])
  {
    if s == {} then []
    else
      TopExists(s);
      var m :| IsTop(s, m);
      [m] + Descending(s - {m})
  }

  /** An absent key is an empty set. */
  function Members(ix: Indexes, key: string): Index {
    if key in ix then ix[key] else map[]
  }

  function Added(ix: Indexes, key: string, member: nat, score: int): Indexes {
    ix[key := Members(ix, key)[member := score]]
  }

  /** A key is dropped with its last member. */
  function Removed(ix: Indexes, key: string, member: nat): Indexes {
    var rest := Members(ix, key) - {member};
    if rest == map[] then ix - {key} else ix[key := rest]
  }

  predicate InBounds(score: int, low: Option<int>, high: Option<int>) {
    (low.Some? ==> low.value <= score) && (high.Some? ==> score <= high.value)
  }

  function InRange(index: Index, low: Option<int>, high: Option<int>): set<Entry> {
    set u | u in index && InBounds(index[u], low, high) :: Entry(index[u], u)
  }

  /** LIMIT offset count. */
  function Slice<T>(s: seq<T>, offset: nat, count: nat): seq<T> {
    s[Min(offset, |s|)..Min(offset + count, |s|)]
  }
}

/** The indexed store of call detail records. */
module CdrStore {
  import opened Primitives
  import opened SortedSets
  import Arithmetic

  const NANOS: nat := 1_000_000_000

  datatype Status = Completed | Failed | Cancelled | NoAnswer | Busy

  /** `createdAt` in nanoseconds; `rest` stands for the fields the store does not look at. */
  datatype Cdr = Cdr(uuid: nat, createdAt: int, trunk: string, did: string, status: Status, rest: string)

  datatype Filter = Filter(trunk: Option<string>, did: Option<string>, status: Option<Status>,
                           start: Option<int>, end: Option<int>, page: Option<nat>, pageSize: Option<nat>)

  datatype Page = Page(items: seq<Cdr>, total: nat, page: nat, pageSize: nat)

  datatype Db = Db(records: map<nat, Cdr>, indexes: Indexes)

  function StatusText(s: Status): string {
    match s
    case Completed => "completed"
    case Failed => "failed"
    case Cancelled => "cancelled"
    case NoAnswer => "no_answer"
    case Busy => "busy"
  }

  const ALL := "cdr:index:all"

  function TrunkKey(trunk: string): string { "cdr:index:trunk:" + trunk }

  function DidKey(did: string): string { "cdr:index:did:" + did }

  function StatusKey(status: Status): string { "cdr:index:status:" + StatusText(status) }

  /** Whole seconds, rounded down. */
  function Seconds(t: int): int {
    t / NANOS
  }

  function Score(c: Cdr): int {
    Seconds(c.createdAt)
  }

  // ---------- the index keys ----------

  predicate KeyOf(key: string, c: Cdr) {
    key == ALL || key == TrunkKey(c.trunk) || key == DidKey(c.did) || key == StatusKey(c.status)
  }

  /** The letter that tells the four kinds of key apart. */
  function Kind(key: string): char {
    if |key| > 10 then key[10] else ' '
  }

  lemma KindOfKeys(trunk: string, did: string, status: Status)
    ensures Kind(ALL) == 'a' && Kind(TrunkKey(trunk)) == 't' && Kind(DidKey(did)) == 'd'
    ensures Kind(StatusKey(status)) == 's'
  {
  }

  lemma TrunkKeysDiffer(a: string, b: string)
    ensures TrunkKey(a) == TrunkKey(b) <==> a == b
  {
    assert TrunkKey(a)[16..] == a && TrunkKey(b)[16..] == b;
  }

  lemma DidKeysDiffer(a: string, b: string)
    ensures DidKey(a) == DidKey(b) <==> a == b
  {
    assert DidKey(a)[14..] == a && DidKey(b)[14..] == b;
  }

  lemma StatusTextsDiffer(a: Status, b: Status)
    ensures StatusText(a) == StatusText(b) <==> a == b
  {
    assert StatusText(a)[2] == StatusText(b)[2] <==> a == b;
  }

  lemma StatusKeysDiffer(a: Status, b: Status)
    ensures StatusKey(a) == StatusKey(b) <==> a == b
  {
    assert StatusKey(a)[17..] == StatusText(a) && StatusKey(b)[17..] == StatusText(b);
    StatusTextsDiffer(a, b);
  }

  /** Two records share a key exactly where the field behind it is the same. */
  lemma SharedKeys(c: Cdr, d: Cdr)
    ensures KeyOf(ALL, d)
    ensures KeyOf(TrunkKey(c.trunk), d) <==> c.trunk == d.trunk
    ensures KeyOf(DidKey(c.did), d) <==> c.did == d.did
    ensures KeyOf(StatusKey(c.status), d) <==> c.status == d.status
  {
    KindOfKeys(c.trunk, c.did, c.status);
    KindOfKeys(d.trunk, d.did, d.status);
    TrunkKeysDiffer(c.trunk, d.trunk);
    DidKeysDiffer(c.did, d.did);
    StatusKeysDiffer(c.status, d.status);
  }

  // ---------- saving and deleting ----------

  function Saved(db: Db, c: Cdr): Db {
    var i1 := Added(db.indexes, ALL, c.uuid, Score(c));
    var i2 := Added(i1, TrunkKey(c.trunk), c.uuid, Score(c));
    var i3 := Added(i2, DidKey(c.did), c.uuid, Score(c));
    Db(db.records[c.uuid := c], Added(i3, StatusKey(c.status), c.uuid, Score(c)))
  }

  function Deleted(db: Db, uuid: nat): Db {
    if uuid !in db.records then db
    else
      var c := db.records[uuid];
      var i1 := Removed(db.indexes, ALL, uuid);
      var i2 := Removed(i1, TrunkKey(c.trunk), uuid);
      var i3 := Removed(i2, DidKey(c.did), uuid);
      Db(db.records - {uuid}, Removed(i3, StatusKey(c.status), uuid))
  }

  lemma AddedMembers(ix: Indexes, key: string, member: nat, score: int, k: string)
    ensures Members(Added(ix, key, member, score), k)
         == if k == key then Members(ix, k)[member := score] else Members(ix, k)
  {
  }

  lemma RemovedMembers(ix: Indexes, key: string, member: nat, k: string)
    ensures Members(Removed(ix, key, member), k) == if k == key then Members(ix, k) - {member} else Members(ix, k)
  {
  }

  lemma SavedMembers(db: Db, c: Cdr, k: string)
    ensures Members(Saved(db, c).indexes, k)
         == if KeyOf(k, c) then Members(db.indexes, k)[c.uuid := Score(c)] else Members(db.indexes, k)
  {
    var i1 := Added(db.indexes, ALL, c.uuid, Score(c));
    var i2 := Added(i1, TrunkKey(c.trunk), c.uuid, Score(c));
    var i3 := Added(i2, DidKey(c.did), c.uuid, Score(c));
    AddedMembers(db.indexes, ALL, c.uuid, Score(c), k);
    AddedMembers(i1, TrunkKey(c.trunk), c.uuid, Score(c), k);
    AddedMembers(i2, DidKey(c.did), c.uuid, Score(c), k);
    AddedMembers(i3, StatusKey(c.status), c.uuid, Score(c), k);
  }

  lemma DeletedMembers(db: Db, uuid: nat, k: string)
    requires uuid in db.records
    ensures Members(Deleted(db, uuid).indexes, k)
         == if KeyOf(k, db.records[uuid]) then Members(db.indexes, k) - {uuid} else Members(db.indexes, k)
  {
    var c := db.records[uuid];
    var i1 := Removed(db.indexes, ALL, uuid);
    var i2 := Removed(i1, TrunkKey(c.trunk), uuid);
    var i3 := Removed(i2, DidKey(c.did), uuid);
    RemovedMembers(db.indexes, ALL, uuid, k);
    RemovedMembers(i1, TrunkKey(c.trunk), uuid, k);
    RemovedMembers(i2, DidKey(c.did), uuid, k);
    RemovedMembers(i3, StatusKey(c.status), uuid, k);
  }

  // ---------- agreement of records and indexes ----------

  /** A sorted set lists exactly the records it should, each at its time. */
  predicate Listed(db: Db, key: string, u: nat) {
    && (u in Members(db.indexes, key) <==> u in db.records && KeyOf(key, db.records[u]))
    && (u in Members(db.indexes, key) && u in db.records ==> Members(db.indexes, key)[u] == Score(db.records[u]))
  }

  ghost predicate Consistent(db: Db) {
    && (forall u :: u in db.records ==> db.records[u].uuid == u)
    && (forall key: string, u: nat :: Listed(db, key, u))
  }

  predicate SameFields(c: Cdr, d: Cdr) {
    c.trunk == d.trunk && c.did == d.did && c.status == d.status
  }

  lemma SaveKeepsConsistent(db: Db, c: Cdr)
    requires Consistent(db) && (c.uuid in db.records ==> SameFields(db.records[c.uuid], c))
    ensures Consistent(Saved(db, c))
  {
    forall key: string, u: nat ensures Listed(Saved(db, c), key, u) {
      SavedMembers(db, c, key);
      assert Listed(db, key, u);
    }
  }

  /** Saving keeps the indexes in step exactly when the record is new or keeps its trunk, number and status; the
      time may change. */
  lemma SaveKeepsConsistentIff(db: Db, c: Cdr)
    requires Consistent(db)
    ensures Consistent(Saved(db, c)) <==> (c.uuid in db.records ==> SameFields(db.records[c.uuid], c))
  {
    if c.uuid in db.records && !SameFields(db.records[c.uuid], c) {
      StaleEntry(db, c);
    } else {
      SaveKeepsConsistent(db, c);
    }
  }

  /** Otherwise the record stays listed under a field value it no longer has. */
  lemma StaleEntry(db: Db, c: Cdr)
    requires Consistent(db) && c.uuid in db.records && !SameFields(db.records[c.uuid], c)
    ensures exists key :: c.uuid in Members(Saved(db, c).indexes, key) && !KeyOf(key, c)
    ensures !Consistent(Saved(db, c))
  {
    var d := db.records[c.uuid];
    SharedKeys(d, c);
    var key :=
      if d.trunk != c.trunk then TrunkKey(d.trunk)
      else if d.did != c.did then DidKey(d.did)
      else StatusKey(d.status);
    assert Listed(db, key, c.uuid);
    SavedMembers(db, c, key);
    assert !Listed(Saved(db, c), key, c.uuid);
  }

  lemma DeleteKeepsConsistent(db: Db, uuid: nat)
    requires Consistent(db)
    ensures Consistent(Deleted(db, uuid))
  {
    if uuid in db.records {
      forall key: string, u: nat ensures Listed(Deleted(db, uuid), key, u) {
        DeletedMembers(db, uuid, key);
        assert Listed(db, key, u);
      }
    }
  }

  lemma PutAndTake<K, V>(m: map<K, V>, k: K, v: V)
    requires k !in m
    ensures m[k := v] - {k} == m
  {
  }

  /** Deleting what was just saved for the first time leaves the records and every sorted set as they were. */
  lemma DeleteUndoesSave(db: Db, c: Cdr, key: string)
    requires Consistent(db) && c.uuid !in db.records
    ensures Deleted(Saved(db, c), c.uuid).records == db.records
    ensures Members(Deleted(Saved(db, c), c.uuid).indexes, key) == Members(db.indexes, key)
  {
    PutAndTake(db.records, c.uuid, c);
    assert Listed(db, key, c.uuid);
    PutAndTake(Members(db.indexes, key), c.uuid, Score(c));
    EntryComesAndGoes(db, c, key);
  }

  lemma EntryComesAndGoes(db: Db, c: Cdr, key: string)
    ensures Members(Deleted(Saved(db, c), c.uuid).indexes, key)
         == if KeyOf(key, c) then Members(db.indexes, key)[c.uuid := Score(c)] - {c.uuid} else Members(db.indexes, key)
  {
    var after := Saved(db, c);
    SavedMembers(db, c, key);
    DeletedMembers(after, c.uuid, key);
  }

  // ---------- whole runs ----------

  datatype Op = Save(cdr: Cdr) | Delete(uuid: nat)

  function Apply(db: Db, op: Op): Db {
    match op
    case Save(c) => Saved(db, c)
    case Delete(u) => Deleted(db, u)
  }

  function Run(ops: seq<Op>): Db {
    if ops == [] then Db(map[], map[]) else Apply(Run(ops[..|ops| - 1]), ops[|ops| - 1])
  }

  /** No operation re-saves a stored record with another trunk, number or status. */
  predicate KeepsFields(ops: seq<Op>) {
    ops == [] ||
    var n := |ops| - 1;
    var db := Run(ops[..n]);
    && KeepsFields(ops[..n])
    && (ops[n].Save? && ops[n].cdr.uuid in db.records ==> SameFields(db.records[ops[n].cdr.uuid], ops[n].cdr))
  }

  lemma {:induction false} RunConsistent(ops: seq<Op>)
    requires KeepsFields(ops)
    ensures Consistent(Run(ops))
  {
    if ops == [] {
      assert forall key: string, u: nat :: Listed(Run([]), key, u);
    } else {
      var n := |ops| - 1;
      RunConsistent(ops[..n]);
      match ops[n]
      case Save(c) => SaveKeepsConsistent(Run(ops[..n]), c);
      case Delete(u) => DeleteKeepsConsistent(Run(ops[..n]), u);
    }
  }

  /** The records after a run are the last saved one of each uuid not deleted since. */
  function LastSaved(ops: seq<Op>, u: nat): Option<Cdr> {
    if ops == [] then None
    else
      match ops[|ops| - 1]
      case Save(c) => if c.uuid == u then Some(c) else LastSaved(ops[..|ops| - 1], u)
      case Delete(d) => if d == u then None else LastSaved(ops[..|ops| - 1], u)
  }

  lemma {:induction false} RunRecords(ops: seq<Op>, u: nat)
    ensures LastSaved(ops, u) == if u in Run(ops).records then Some(Run(ops).records[u]) else None
  {
    if ops != [] {
      RunRecords(ops[..|ops| - 1], u);
    }
  }

  // ---------- runs that re-save records with other fields ----------

  predicate SavedUnder(ops: seq<Op>, i: nat, key: string, u: nat) {
    i < |ops| && ops[i].Save? && ops[i].cdr.uuid == u && KeyOf(key, ops[i].cdr)
  }

  /** A delete takes the entries of the record as it then is. */
  predicate RemovedAt(ops: seq<Op>, k: nat, key: string, u: nat) {
    k < |ops| && ops[k] == Delete(u) && LastSaved(ops[..k], u).Some? && KeyOf(key, LastSaved(ops[..k], u).value)
  }

  /** The save whose entry stands in a sorted set. */
  predicate StandsAt(ops: seq<Op>, i: nat, key: string, u: nat) {
    && SavedUnder(ops, i, key, u)
    && forall k :: i < k < |ops| ==> !SavedUnder(ops, k, key, u) && !RemovedAt(ops, k, key, u)
  }

  function LastUnder(ops: seq<Op>, key: string, u: nat): Option<Cdr> {
    if ops == [] then None
    else
      var n := |ops| - 1;
      if SavedUnder(ops, n, key, u) then Some(ops[n].cdr)
      else if RemovedAt(ops, n, key, u) then None
      else LastUnder(ops[..n], key, u)
  }

  /** One more operation leaves an entry standing unless it saves the record under the key again or removes it. */
  lemma StandsStep(ops: seq<Op>, i: nat, key: string, u: nat)
    requires i + 1 < |ops|
    ensures StandsAt(ops, i, key, u)
       <==> && StandsAt(ops[..|ops| - 1], i, key, u)
            && !SavedUnder(ops, |ops| - 1, key, u)
            && !RemovedAt(ops, |ops| - 1, key, u)
  {
    var n := |ops| - 1;
    forall k | 0 <= k < n
      ensures SavedUnder(ops[..n], k, key, u) <==> SavedUnder(ops, k, key, u)
      ensures RemovedAt(ops[..n], k, key, u) <==> RemovedAt(ops, k, key, u)
    {
      assert ops[..n][..k] == ops[..k];
    }
    hide SavedUnder, RemovedAt;
  }

  /** At most one save stands in a sorted set for a record, and it is the one that LastUnder finds. */
  lemma {:induction false} LastUnderStands(ops: seq<Op>, i: nat, key: string, u: nat)
    requires i < |ops|
    ensures StandsAt(ops, i, key, u) ==> LastUnder(ops, key, u) == Some(ops[i].cdr)
  {
    var n := |ops| - 1;
    if i < n {
      LastUnderStands(ops[..n], i, key, u);
      StandsStep(ops, i, key, u);
    }
  }

  lemma {:induction false} StandingSave(ops: seq<Op>, key: string, u: nat) returns (i: nat)
    requires LastUnder(ops, key, u).Some?
    ensures StandsAt(ops, i, key, u)
  {
    var n := |ops| - 1;
    if SavedUnder(ops, n, key, u) {
      i := n;
    } else {
      i := StandingSave(ops[..n], key, u);
      StandsStep(ops, i, key, u);
    }
  }

  /** The entry that stands for a record in a sorted set. */
  function EntryOf(db: Db, key: string, u: nat): Option<int> {
    if u in Members(db.indexes, key) then Some(Members(db.indexes, key)[u]) else None
  }

  lemma {:induction false} RunEntries(ops: seq<Op>, key: string, u: nat)
    ensures EntryOf(Run(ops), key, u)
         == match LastUnder(ops, key, u) case Some(c) => Some(Score(c)) case None => None
  {
    if ops != [] {
      var n := |ops| - 1;
      RunEntries(ops[..n], key, u);
      StepEntries(Run(ops[..n]), ops[n], key, u);
      RunRecords(ops[..n], u);
    }
  }

  lemma StepEntries(db: Db, op: Op, key: string, u: nat)
    ensures EntryOf(Apply(db, op), key, u)
         == match op
            case Save(c) => if c.uuid == u && KeyOf(key, c) then Some(Score(c)) else EntryOf(db, key, u)
            case Delete(d) =>
              if d == u && u in db.records && KeyOf(key, db.records[u]) then None else EntryOf(db, key, u)
  {
    hide KeyOf;
    match op
    case Save(c) => SavedMembers(db, c, key);
    case Delete(d) =>
      if d in db.records {
        DeletedMembers(db, d, key);
      }
  }

  /** After every run a record is in a sorted set, with the time of the last save under its key, if and only if it was
      saved under the key and not removed since by a delete of a record that had the key. */
  lemma RunMembers(ops: seq<Op>, key: string, u: nat)
    ensures u in Members(Run(ops).indexes, key) <==> exists i :: 0 <= i < |ops| && StandsAt(ops, i, key, u)
    ensures forall i :: 0 <= i < |ops| && StandsAt(ops, i, key, u) ==>
              u in Members(Run(ops).indexes, key) && Members(Run(ops).indexes, key)[u] == Score(ops[i].cdr)
  {
    RunEntries(ops, key, u);
    forall i: nat | i < |ops|
      ensures StandsAt(ops, i, key, u) ==> LastUnder(ops, key, u) == Some(ops[i].cdr)
    {
      LastUnderStands(ops, i, key, u);
    }
    if LastUnder(ops, key, u).Some? {
      var at := StandingSave(ops, key, u);
    }
  }

  /** Whatever still stands in a sorted set belongs there by the fields last saved. */
  ghost predicate NothingStale(ops: seq<Op>) {
    forall i: nat, key: string, u: nat :: StandsAt(ops, i, key, u) ==>
      LastSaved(ops, u).Some? && KeyOf(key, LastSaved(ops, u).value)
  }

  /** The record last saved stands under each of its keys. */
  lemma {:induction false} LastSavedStands(ops: seq<Op>, key: string, u: nat)
    requires LastSaved(ops, u).Some? && KeyOf(key, LastSaved(ops, u).value)
    ensures LastUnder(ops, key, u) == LastSaved(ops, u)
  {
    var n := |ops| - 1;
    if !(ops[n].Save? && ops[n].cdr.uuid == u) {
      LastSavedStands(ops[..n], key, u);
    }
  }

  lemma ListedIff(ops: seq<Op>, key: string, u: nat)
    ensures Listed(Run(ops), key, u)
       <==> (LastUnder(ops, key, u).Some? ==> LastSaved(ops, u).Some? && KeyOf(key, LastSaved(ops, u).value))
  {
    hide KeyOf;
    RunEntries(ops, key, u);
    RunRecords(ops, u);
    if LastSaved(ops, u).Some? && KeyOf(key, LastSaved(ops, u).value) {
      LastSavedStands(ops, key, u);
    }
  }

  lemma {:induction false} RunUuids(ops: seq<Op>)
    ensures forall u :: u in Run(ops).records ==> Run(ops).records[u].uuid == u
  {
    if ops != [] {
      RunUuids(ops[..|ops| - 1]);
    }
  }

  /** For every run of saves and deletes: indexes and records agree afterwards if and only if nothing stale stands. */
  lemma RunConsistentIff(ops: seq<Op>)
    ensures Consistent(Run(ops)) <==> NothingStale(ops)
  {
    hide KeyOf, Run, LastUnder, LastSaved, RemovedAt;
    RunUuids(ops);
    forall key: string, u: nat
      ensures Listed(Run(ops), key, u)
         <==> (LastUnder(ops, key, u).Some? ==> LastSaved(ops, u).Some? && KeyOf(key, LastSaved(ops, u).value))
    {
      ListedIff(ops, key, u);
    }
    if Consistent(Run(ops)) {
      forall i: nat, key: string, u: nat | StandsAt(ops, i, key, u)
        ensures LastSaved(ops, u).Some? && KeyOf(key, LastSaved(ops, u).value)
      {
        LastUnderStands(ops, i, key, u);
        assert Listed(Run(ops), key, u);
      }
    }
    if NothingStale(ops) {
      forall key: string, u: nat ensures Listed(Run(ops), key, u) {
        if LastUnder(ops, key, u).Some? {
          var i := StandingSave(ops, key, u);
        }
      }
    }
  }

  lemma KeptFieldsNothingStale(ops: seq<Op>)
    requires KeepsFields(ops)
    ensures NothingStale(ops)
  {
    RunConsistent(ops);
    RunConsistentIff(ops);
  }

  // ---------- listing ----------

  /** One index is consulted: the trunk's if given, else the number's, else the status's, else all. */
  function SelectedKey(f: Filter): string {
    if f.trunk.Some? then TrunkKey(f.trunk.value)
    else if f.did.Some? then DidKey(f.did.value)
    else if f.status.Some? then StatusKey(f.status.value)
    else ALL
  }

  function Low(f: Filter): Option<int> {
    match f.start case Some(t) => Some(Seconds(t)) case None => None
  }

  function High(f: Filter): Option<int> {
    match f.end case Some(t) => Some(Seconds(t)) case None => None
  }

  function PageNumber(f: Filter): nat {
    match f.page case Some(p) => Max(p, 1) case None => 1
  }

  function PageSize(f: Filter): (n: nat)
    ensures 1 <= n <= 100
  {
    match f.pageSize case Some(n) => Max(Min(n, 100), 1) case None => 20
  }

  /** 32-bit arithmetic. */
  function Offset(page: nat, pageSize: nat): nat
    requires page >= 1
  {
    (page - 1) * pageSize % U32
  }

  /** The records found for a list of index entries; entries without a record are passed over. */
  function Fetch(records: map<nat, Cdr>, entries: seq<Entry>): seq<Cdr> {
    if entries == [] then []
    else
      var n := |entries| - 1;
      var before := Fetch(records, entries[..n]);
      if entries[n].member in records then before + [records[entries[n].member]] else before
  }

  function Selection(db: Db, f: Filter): set<Entry> {
    InRange(Members(db.indexes, SelectedKey(f)), Low(f), High(f))
  }

  /** What a listing returns. */
  function ListResult(db: Db, f: Filter): Page {
    var (page, size) := (PageNumber(f), PageSize(f));
    Page(Fetch(db.records, Slice(Descending(Selection(db, f)), Offset(page, size), size)), |Selection(db, f)|,
         page, size)
  }

  class CdrStore {
    var records: map<nat, Cdr>
    var indexes: Indexes

    constructor ()
      ensures State() == Db(map[], map[])
    {
      records := map[];
      indexes := map[];
    }

    function State(): Db
      reads this
    {
      Db(records, indexes)
    }

    method Zadd(key: string, member: nat, score: int)
      modifies this`indexes
      ensures indexes == Added(old(indexes), key, member, score)
    {
      indexes := indexes[key := Members(indexes, key)[member := score]];
    }

    method Zrem(key: string, member: nat)
      modifies this`indexes
      ensures indexes == Removed(old(indexes), key, member)
    {
      var rest := Members(indexes, key) - {member};
      if rest == map[] {
        indexes := indexes - {key};
      } else {
        indexes := indexes[key := rest];
      }
    }

    method Save(c: Cdr)
      modifies this
      ensures State() == Saved(old(State()), c)
    {
      records := records[c.uuid := c];
      Zadd(ALL, c.uuid, Score(c));
      Zadd(TrunkKey(c.trunk), c.uuid, Score(c));
      Zadd(DidKey(c.did), c.uuid, Score(c));
      Zadd(StatusKey(c.status), c.uuid, Score(c));
    }

    method Get(uuid: nat) returns (r: Option<Cdr>)
      ensures r == if uuid in records then Some(records[uuid]) else None
    {
      r := if uuid in records then Some(records[uuid]) else None;
    }

    method Delete(uuid: nat) returns (existed: bool)
      modifies this
      ensures existed == (uuid in old(records))
      ensures State() == Deleted(old(State()), uuid)
    {
      var found := Get(uuid);
      if found.None? {
        return false;
      }
      var c := found.value;
      records := records - {uuid};
      Zrem(ALL, uuid);
      Zrem(TrunkKey(c.trunk), uuid);
      Zrem(DidKey(c.did), uuid);
      Zrem(StatusKey(c.status), uuid);
      existed := true;
    }

    method List(f: Filter) returns (r: Page)
      ensures r == ListResult(State(), f)
    {
      var page := PageNumber(f);
      var pageSize := PageSize(f);
      var index := Members(indexes, SelectedKey(f));
      var total := |InRange(index, Low(f), High(f))|;
      var entries := Slice(Descending(InRange(index, Low(f), High(f))), Offset(page, pageSize), pageSize);
      var items := [];
      for i := 0 to |entries|
        invariant items == Fetch(records, entries[..i])
      {
        assert entries[..i + 1][..i] == entries[..i];
        var found := Get(entries[i].member);
        if found.Some? {
          items := items + [found.value];
        }
      }
      assert entries[..|entries|] == entries;
      r := Page(items, total, page, pageSize);
    }
  }

  // ---------- what a listing is ----------

  predicate IndexMatches(f: Filter, c: Cdr) {
    if f.trunk.Some? then c.trunk == f.trunk.value
    else if f.did.Some? then c.did == f.did.value
    else if f.status.Some? then c.status == f.status.value
    else true
  }

  predicate Selected(f: Filter, c: Cdr) {
    IndexMatches(f, c) && InBounds(Score(c), Low(f), High(f))
  }

  /** Newest second first, ties by descending uuid. */
  predicate Newer(c: Cdr, d: Cdr) {
    Score(c) > Score(d) || (Score(c) == Score(d) && c.uuid > d.uuid)
  }

  function Matching(records: map<nat, Cdr>, f: Filter): set<Entry> {
    set u | u in records && Selected(f, records[u]) :: Entry(Score(records[u]), u)
  }

  /** The reference: all records filtered and sorted, without any index. */
  function Listing(records: map<nat, Cdr>, f: Filter): seq<Cdr> {
    Fetch(records, Descending(Matching(records, f)))
  }

  lemma KeyMatches(f: Filter, c: Cdr)
    ensures KeyOf(SelectedKey(f), c) <==> IndexMatches(f, c)
  {
    KindOfKeys(c.trunk, c.did, c.status);
    if f.trunk.Some? {
      KindOfKeys(f.trunk.value, "", c.status);
      TrunkKeysDiffer(f.trunk.value, c.trunk);
    } else if f.did.Some? {
      KindOfKeys("", f.did.value, c.status);
      DidKeysDiffer(f.did.value, c.did);
    } else if f.status.Some? {
      KindOfKeys("", "", f.status.value);
      StatusKeysDiffer(f.status.value, c.status);
    }
  }

  lemma SelectionIsMatching(db: Db, f: Filter)
    requires Consistent(db)
    ensures Selection(db, f) == Matching(db.records, f)
  {
    var index := Members(db.indexes, SelectedKey(f));
    forall e ensures e in Selection(db, f) <==> e in Matching(db.records, f) {
      assert Listed(db, SelectedKey(f), e.member);
      if e.member in db.records {
        KeyMatches(f, db.records[e.member]);
      }
    }
  }

  lemma {:induction false} FetchAll(records: map<nat, Cdr>, entries: seq<Entry>)
    requires forall i :: 0 <= i < |entries| ==> entries[i].member in records
    ensures |Fetch(records, entries)| == |entries|
    ensures forall i :: 0 <= i < |entries| ==> Fetch(records, entries)[i] == records[entries[i].member]
  {
    if entries != [] {
      FetchAll(records, entries[..|entries| - 1]);
    }
  }

  /** A listing holds exactly the stored records selected by the filter, each once, newest second first. */
  lemma ListingMeaning(records: map<nat, Cdr>, f: Filter)
    requires forall u :: u in records ==> records[u].uuid == u
    ensures |Listing(records, f)| == |Matching(records, f)|
    ensures forall c: Cdr :: c in Listing(records, f) <==> c.uuid in records && records[c.uuid] == c && Selected(f, c)
    ensures forall i, j :: 0 <= i < j < |Listing(records, f)| ==> Newer(Listing(records, f)[i], Listing(records, f)[j])
  {
    var entries := Descending(Matching(records, f));
    forall i | 0 <= i < |entries|
      ensures entries[i].member in records && Selected(f, records[entries[i].member])
      ensures entries[i].score == Score(records[entries[i].member])
    {
      assert entries[i] in Matching(records, f);
    }
    FetchAll(records, entries);
    forall c: Cdr | c.uuid in records && records[c.uuid] == c && Selected(f, c) ensures c in Listing(records, f) {
      var e := Entry(Score(c), c.uuid);
      assert e in Matching(records, f) && e in entries;
      var i :| 0 <= i < |entries| && entries[i] == e;
      assert Listing(records, f)[i] == c;
    }
  }

  lemma FetchSlice(records: map<nat, Cdr>, entries: seq<Entry>, offset: nat, count: nat)
    requires forall i :: 0 <= i < |entries| ==> entries[i].member in records
    ensures Fetch(records, Slice(entries, offset, count)) == Slice(Fetch(records, entries), offset, count)
  {
    FetchAll(records, entries);
    FetchAll(records, Slice(entries, offset, count));
  }

  /** On agreeing indexes, what `List` returns is a slice of the reference listing, and its total is the length. */
  lemma ListIsSlice(db: Db, f: Filter, offset: nat, count: nat)
    requires Consistent(db)
    ensures |Selection(db, f)| == |Listing(db.records, f)|
    ensures Fetch(db.records, Slice(Descending(Selection(db, f)), offset, count))
         == Slice(Listing(db.records, f), offset, count)
  {
    SelectionIsMatching(db, f);
    ListingMeaning(db.records, f);
    var entries := Descending(Matching(db.records, f));
    forall i | 0 <= i < |entries| ensures entries[i].member in db.records {
      assert entries[i] in Matching(db.records, f);
    }
    FetchSlice(db.records, entries, offset, count);
  }

  // ---------- pages ----------

  /** Page p (from 1) of a listing. */
  function PageOf<T>(listing: seq<T>, page: nat, pageSize: nat): seq<T>
    requires page >= 1
  {
    Slice(listing, (page - 1) * pageSize, pageSize)
  }

  function FirstPages<T>(listing: seq<T>, pages: nat, pageSize: nat): seq<T> {
    if pages == 0 then [] else FirstPages(listing, pages - 1, pageSize) + PageOf(listing, pages, pageSize)
  }

  /** Consecutive pages tile the listing: the first k of them are its first k page sizes, without gap or repeat. */
  lemma {:induction false} PagesTile<T>(listing: seq<T>, pages: nat, pageSize: nat)
    ensures FirstPages(listing, pages, pageSize) == listing[..Min(pages * pageSize, |listing|)]
  {
    if pages > 0 {
      PagesTile(listing, pages - 1, pageSize);
      var before := (pages - 1) * pageSize;
      assert pages * pageSize == before + pageSize;
      assert listing[..Min(before + pageSize, |listing|)]
          == listing[..Min(before, |listing|)] + Slice(listing, before, pageSize);
    }
  }

  lemma AllPages<T>(listing: seq<T>, pageSize: nat)
    requires pageSize > 0
    ensures FirstPages(listing, CeilDiv(|listing|, pageSize), pageSize) == listing
  {
    var n := |listing| + pageSize - 1;
    Arithmetic.Division(n, pageSize);
    var pages := CeilDiv(|listing|, pageSize);
    assert pages * pageSize == n - n % pageSize;
    PagesTile(listing, pages, pageSize);
  }

  lemma SlicesAgreeIff<T>(s: seq<T>, i: nat, j: nat, count: nat)
    requires count >= 1 && i < j && forall a, b :: 0 <= a < b < |s| ==> s[a] != s[b]
    ensures Slice(s, i, count) == Slice(s, j, count) <==> i >= |s|
  {
    if i < |s| {
      assert Slice(s, i, count)[0] == s[i];
      assert j < |s| ==> Slice(s, j, count)[0] == s[j];
    }
  }

  lemma RightSliceIff<T>(s: seq<T>, wanted: nat, count: nat)
    requires count >= 1 && forall a, b :: 0 <= a < b < |s| ==> s[a] != s[b]
    ensures Slice(s, wanted % U32, count) == Slice(s, wanted, count) <==> wanted < U32 || wanted % U32 >= |s|
  {
    if wanted >= U32 {
      SlicesAgreeIff(s, wanted % U32, wanted, count);
    }
  }

  /** The offset is computed in 32 bits, so far-off pages come back to the front: the right page is returned exactly
      when the offset does not wrap, or wraps to beyond the end. */
  lemma RightPageIff(records: map<nat, Cdr>, f: Filter)
    requires forall u :: u in records ==> records[u].uuid == u
    ensures Slice(Listing(records, f), Offset(PageNumber(f), PageSize(f)), PageSize(f))
         == PageOf(Listing(records, f), PageNumber(f), PageSize(f))
       <==> (PageNumber(f) - 1) * PageSize(f) < U32 || Offset(PageNumber(f), PageSize(f)) >= |Listing(records, f)|
  {
    ListingDistinct(records, f);
    RightSliceIff(Listing(records, f), (PageNumber(f) - 1) * PageSize(f), PageSize(f));
  }

  lemma ListingDistinct(records: map<nat, Cdr>, f: Filter)
    requires forall u :: u in records ==> records[u].uuid == u
    ensures forall a, b :: 0 <= a < b < |Listing(records, f)| ==> Listing(records, f)[a] != Listing(records, f)[b]
  {
    ListingMeaning(records, f);
  }

  /** The whole store: after any run of saves and deletes that leaves nothing stale, the records last saved and not
      deleted since that pass the filter, newest second first, are listed page by page. The total is their number, and
      the items are the page asked for exactly while its offset does not wrap into the listing. */
  lemma ListedPage(ops: seq<Op>, f: Filter)
    requires NothingStale(ops)
    ensures var listing := Listing(Run(ops).records, f);
            var r := ListResult(Run(ops), f);
            && (forall c: Cdr :: c in listing <==> LastSaved(ops, c.uuid) == Some(c) && Selected(f, c))
            && (forall i, j :: 0 <= i < j < |listing| ==> Newer(listing[i], listing[j]))
            && r.total == |listing|
            && (r.items == PageOf(listing, r.page, r.pageSize)
                <==> (r.page - 1) * r.pageSize < U32 || Offset(r.page, r.pageSize) >= |listing|)
  {
    var db := Run(ops);
    RunConsistentIff(ops);
    ListingMeaning(db.records, f);
    forall c: Cdr ensures c in Listing(db.records, f) <==> LastSaved(ops, c.uuid) == Some(c) && Selected(f, c) {
      RunRecords(ops, c.uuid);
    }
    ListIsSlice(db, f, Offset(PageNumber(f), PageSize(f)), PageSize(f));
    RightPageIff(db.records, f);
  }

  // ---------- the documented filter ----------

  /** The filter fields as documented: every one that is set restricts the result. */
  predicate FieldsMatch(f: Filter, c: Cdr) {
    && (f.trunk.Some? ==> c.trunk == f.trunk.value)
    && (f.did.Some? ==> c.did == f.did.value)
    && (f.status.Some? ==> c.status == f.status.value)
  }

  ghost predicate FieldsHonoured(f: Filter) {
    forall c: Cdr :: IndexMatches(f, c) <==> FieldsMatch(f, c)
  }

  predicate AtMostOneField(f: Filter) {
    && (f.trunk.Some? ==> f.did.None? && f.status.None?)
    && (f.did.Some? ==> f.status.None?)
  }

  /** Only the first of trunk, number and status is used, so the documentation is met for every record exactly when
      no more than one is set. */
  lemma FieldsHonouredIff(f: Filter)
    ensures FieldsHonoured(f) <==> AtMostOneField(f)
  {
    if !AtMostOneField(f) {
      var trunk := if f.trunk.Some? then f.trunk.value else "";
      var did := if f.did.Some? then (if f.trunk.Some? then f.did.value + ['0'] else f.did.value) else "";
      var status := if f.status == Some(Busy) then Failed else Busy;
      var c := Cdr(0, 0, trunk, did, status, "");
      assert IndexMatches(f, c) && !FieldsMatch(f, c);
    }
  }

  predicate TimesMatch(f: Filter, c: Cdr) {
    (f.start.Some? ==> f.start.value <= c.createdAt) && (f.end.Some? ==> c.createdAt <= f.end.value)
  }

  /** Dates are compared in whole seconds: nothing in the documented range is missed, and what is listed outside it
      shares its second with the start or the end. */
  lemma RangeWidens(f: Filter, c: Cdr)
    ensures InBounds(Score(c), Low(f), High(f)) <==>
            && (f.start.Some? ==> f.start.value <= c.createdAt || Seconds(f.start.value) == Score(c))
            && (f.end.Some? ==> c.createdAt <= f.end.value || Seconds(f.end.value) == Score(c))
    ensures TimesMatch(f, c) ==> InBounds(Score(c), Low(f), High(f))
  {
    if f.start.Some? { SecondsMonotone(f.start.value, c.createdAt); }
    if f.end.Some? { SecondsMonotone(c.createdAt, f.end.value); }
  }

  lemma SecondsMonotone(t: int, u: int)
    ensures t <= u ==> Seconds(t) <= Seconds(u)
    ensures u < t ==> Seconds(u) <= Seconds(t)
  {
  }

  ghost predicate RangeHonoured(f: Filter) {
    forall c: Cdr :: InBounds(Score(c), Low(f), High(f)) <==> TimesMatch(f, c)
  }

  /** The range ends in an earlier second than it starts. */
  predicate EmptyRange(f: Filter) {
    f.start.Some? && f.end.Some? && Seconds(f.end.value) < Seconds(f.start.value)
  }

  /** Exact to the nanosecond only when the range starts with a second and ends with one, or is empty. */
  lemma RangeHonouredIff(f: Filter)
    ensures RangeHonoured(f)
       <==> EmptyRange(f)
            || ((f.start.Some? ==> f.start.value % NANOS == 0) && (f.end.Some? ==> f.end.value % NANOS == NANOS - 1))
  {
    if EmptyRange(f) {
      forall c: Cdr ensures !TimesMatch(f, c) && !InBounds(Score(c), Low(f), High(f)) {
        RangeWidens(f, c);
      }
    } else if f.start.Some? && f.start.value % NANOS != 0 {
      var c := Cdr(0, f.start.value - f.start.value % NANOS, "", "", Busy, "");
      RangeWidens(f, c);
      assert InBounds(Score(c), Low(f), High(f)) && !TimesMatch(f, c);
    } else if f.end.Some? && f.end.value % NANOS != NANOS - 1 {
      var c := Cdr(0, f.end.value - f.end.value % NANOS + (NANOS - 1), "", "", Busy, "");
      RangeWidens(f, c);
      assert InBounds(Score(c), Low(f), High(f)) && !TimesMatch(f, c);
    } else {
      forall c: Cdr ensures InBounds(Score(c), Low(f), High(f)) <==> TimesMatch(f, c) {
        RangeWidens(f, c);
      }
    }
  }
}
