/** The pool of prioritised statuses behind a unit's displayed status, and its survival from one
    hook to the next. */
module StatusPools {
  import opened Text

  // ---------------------------------------------------------------- values

  /** A status of the operator framework; the unknown one has no message. */
  datatype Value =
    | Blocked(message: string) | Waiting(message: string) | Maintenance(message: string) | Active(message: string)
    | Unknown

  function Message(v: Value): string {
    if v.Unknown? then "" else v.message
  }

  function Name(v: Value): string {
    match v
    case Blocked(_) => "blocked"
    case Waiting(_) => "waiting"
    case Maintenance(_) => "maintenance"
    case Active(_) => "active"
    case Unknown => "unknown"
  }

  /** `StatusBase.from_name` on the five names the pool stores. */
  function FromName(name: string, message: string): Value {
    if name == "blocked" then Blocked(message)
    else if name == "waiting" then Waiting(message)
    else if name == "maintenance" then Maintenance(message)
    else if name == "active" then Active(message)
    else Unknown
  }

  predicate Severe(v: Value) { v.Blocked? || v.Waiting? || v.Maintenance? }

  function StatusPriority(v: Value): int {
    match v
    case Blocked(_) => 1
    case Waiting(_) => 2
    case Maintenance(_) => 3
    case Active(_) => 4
    case Unknown => 5
  }

  /** What one `Status` object holds; `name` is its label. */
  datatype Item = Item(name: string, rank: int, neverSet: bool, status: Value)

  /** The order of `priority()`: severity first, then the higher rank. */
  predicate Before(a: Item, b: Item) {
    var p, q := StatusPriority(a.status), StatusPriority(b.status);
    p < q || (p == q && -a.rank < -b.rank)
  }

  function Insert(x: Item, items: seq<Item>): seq<Item> {
    if items == [] || !Before(items[0], x) then [x] + items else [items[0]] + Insert(x, items[1..])
  }

  /** Python's stable `sorted` by priority. */
  function Sorted(items: seq<Item>): (r: seq<Item>)
    ensures |r| == |items|
    ensures multiset(r) == multiset(items)
  {
    if items == [] then []
    else
      var r := Insert(items[0], Sorted(items[1..]));
      InsertKeeps(items[0], Sorted(items[1..]));
      assert items == [items[0]] + items[1..];
      r
  }

  lemma {:induction false} InsertKeeps(x: Item, items: seq<Item>)
    ensures multiset(Insert(x, items)) == multiset(items) + multiset{x}
    ensures |Insert(x, items)| == |items| + 1
  {
    if items != [] && Before(items[0], x) {
      InsertKeeps(x, items[1..]);
      assert items == [items[0]] + items[1..];
    }
  }

  predicate Ordered(items: seq<Item>) {
    forall i, j :: 0 <= i < j < |items| ==> !Before(items[j], items[i])
  }

  lemma {:induction false} InsertOrders(x: Item, items: seq<Item>)
    requires Ordered(items)
    ensures Ordered(Insert(x, items))
    ensures forall y :: y in Insert(x, items) ==> y == x || y in items
  {
    if items != [] && Before(items[0], x) {
      InsertOrders(x, items[1..]);
      var rest := Insert(x, items[1..]);
      forall j | 0 <= j < |rest| ensures !Before(rest[j], items[0]) {
        assert rest[j] == x || rest[j] in items[1..];
      }
    }
  }

  lemma {:induction false} SortedIsOrdered(items: seq<Item>)
    ensures Ordered(Sorted(items))
  {
    if items != [] {
      SortedIsOrdered(items[1..]);
      InsertOrders(items[0], Sorted(items[1..]));
    }
  }

  /** The status shown for one entry: prefixed with its label, unless it is active without message. */
  function Labelled(it: Item): Option<Value> {
    if it.status.Unknown? then None
    else if it.status.Active? && it.status.message == "" then Some(Active(""))
    else
      var text := "(" + it.name + ")" + if it.status.message != "" then " " + it.status.message else "";
      Some(FromName(Name(it.status), text))
  }

  function ComputeStatus(items: seq<Item>): Option<Value> {
    if items == [] then None else Labelled(Sorted(items)[0])
  }

  /** `on_update`: active and unknown leave the unit status as it is. */
  function Displayed(items: seq<Item>, current: Value): Value {
    var computed := ComputeStatus(items);
    if computed.None? || computed.value.Active? then current else computed.value
  }

  // ---------------------------------------------------------------- the shown status is the minimum

  /** Entry `i` comes first: before all earlier ones strictly, and after no later one. */
  predicate IsTop(items: seq<Item>, i: nat) {
    && i < |items|
    && (forall j :: 0 <= j < i ==> Before(items[i], items[j]))
    && (forall j :: i <= j < |items| ==> !Before(items[j], items[i]))
  }

  lemma TopOfCons(x: Item, items: seq<Item>, j: nat)
    requires IsTop(items, j)
    ensures IsTop([x] + items, if Before(items[j], x) then j + 1 else 0)
  {
    var all := [x] + items;
    assert forall k :: 1 <= k < |all| ==> all[k] == items[k - 1];
    if Before(items[j], x) {
      assert forall k :: 0 <= k < j + 1 ==> Before(all[j + 1], all[k]);
    } else {
      assert forall k :: 0 <= k < |items| ==> !Before(items[k], items[j]);
    }
  }

  lemma {:induction false} HeadIsTop(items: seq<Item>) returns (i: nat)
    requires items != []
    ensures IsTop(items, i) && Sorted(items)[0] == items[i]
  {
    if |items| == 1 {
      i := 0;
    } else {
      var j := HeadIsTop(items[1..]);
      TopOfCons(items[0], items[1..], j);
      assert [items[0]] + items[1..] == items;
      i := if Before(items[j + 1], items[0]) then j + 1 else 0;
    }
  }

  /** While some status is severe, the unit shows the top of the pool. */
  ghost predicate ShowsTheTop(items: seq<Item>, unitStatus: Value) {
    forall k :: 0 <= k < |items| && Severe(items[k].status) ==>
      exists i: nat :: IsTop(items, i) && Severe(items[i].status) && Labelled(items[i]) == Some(unitStatus)
  }

  lemma TopIsMinimal(items: seq<Item>, i: nat, k: nat)
    requires IsTop(items, i) && k < |items|
    ensures !Before(items[k], items[i])
  {
    if k < i {
      assert Before(items[i], items[k]);
    }
  }

  lemma UpdateShowsTheTop(items: seq<Item>, current: Value)
    ensures ShowsTheTop(items, Displayed(items, current))
  {
    if items != [] {
      var i := HeadIsTop(items);
      forall k | 0 <= k < |items| && Severe(items[k].status) ensures Severe(items[i].status) {
        TopIsMinimal(items, i, k);
      }
    }
  }

  // ---------------------------------------------------------------- spelled out

  predicate SameKind(v: Value, w: Value) {
    && (v.Blocked? <==> w.Blocked?) && (v.Waiting? <==> w.Waiting?) && (v.Maintenance? <==> w.Maintenance?)
    && (v.Active? <==> w.Active?)
  }

  /** How one entry is shown. */
  predicate ShownAs(it: Item, shown: Option<Value>) {
    if it.status.Unknown? then shown.None?
    else if it.status == Active("") then shown == Some(Active(""))
    else
      && shown.Some? && SameKind(shown.value, it.status) && !shown.value.Unknown?
      && shown.value.message == if it.status.message == "" then "(" + it.name + ")"
                                else "(" + it.name + ") " + it.status.message
  }

  lemma LabelledIs(it: Item)
    ensures ShownAs(it, Labelled(it))
  {
    if !it.status.Unknown? && it.status.message != "" {
      Assoc("(" + it.name + ")", " ", it.status.message);
      Assoc("(" + it.name, ")", " ");
      assert "(" + it.name + ")" + " " == "(" + it.name + ") ";
    }
  }

  /** Entry `i` has the highest rank of its kind, and is the earliest of those. */
  predicate FirstOfItsKind(items: seq<Item>, i: nat) {
    && i < |items|
    && forall j :: 0 <= j < |items| && SameKind(items[j].status, items[i].status) ==>
         items[j].rank <= items[i].rank && (j < i ==> items[j].rank < items[i].rank)
  }

  /** Nothing is worse than entry `i`: blocked, then waiting, then maintenance, then active, then unknown. */
  predicate WorstKind(items: seq<Item>, i: nat) {
    && i < |items|
    && var v := items[i].status;
       forall j :: 0 <= j < |items| ==>
         && (items[j].status.Blocked? ==> v.Blocked?)
         && (items[j].status.Waiting? ==> v.Blocked? || v.Waiting?)
         && (items[j].status.Maintenance? ==> v.Blocked? || v.Waiting? || v.Maintenance?)
         && (items[j].status.Active? ==> !v.Unknown?)
  }

  /** The computed status is that of the entry of the worst kind with the highest rank, the earliest of
      several, with its label in front of its message. */
  lemma WorstIsComputed(items: seq<Item>) returns (i: nat)
    requires items != []
    ensures WorstKind(items, i) && FirstOfItsKind(items, i) && ShownAs(items[i], ComputeStatus(items))
  {
    i := HeadIsTop(items);
    LabelledIs(items[i]);
    forall j: nat | j < |items| ensures !Before(items[j], items[i]) && (j < i ==> Before(items[i], items[j])) {
      TopIsMinimal(items, i, j);
    }
  }

  /** The unit shows it if it is blocked, waiting or in maintenance, and otherwise what it showed before. */
  lemma UnitShowsTheWorst(items: seq<Item>, current: Value)
    ensures (forall j :: 0 <= j < |items| ==> items[j].status.Active? || items[j].status.Unknown?) ==>
              Displayed(items, current) == current
    ensures (exists j :: 0 <= j < |items| && Severe(items[j].status)) ==>
              exists i: nat :: WorstKind(items, i) && FirstOfItsKind(items, i)
                               && ShownAs(items[i], Some(Displayed(items, current)))
  {
    if items != [] {
      var i := WorstIsComputed(items);
    }
  }

  predicate Distinct(items: seq<Item>) {
    forall i, j :: 0 <= i < j < |items| ==> items[i].name != items[j].name
  }

  function Names(items: seq<Item>): set<string> {
    set it | it in items :: it.name
  }

  /** `pool[label] = status` on an insertion-ordered dict. */
  function Put(items: seq<Item>, it: Item): seq<Item> {
    var i := Place(items, it.name);
    if i < |items| then items[i := it] else items + [it]
  }

  lemma PutKeepsDistinct(items: seq<Item>, it: Item)
    requires Distinct(items)
    ensures Distinct(Put(items, it))
  {
    var i := Place(items, it.name);
    var r := Put(items, it);
    if i < |items| {
      assert forall j :: 0 <= j < |items| ==> r[j].name == items[j].name;
    } else {
      assert forall j :: 0 <= j < |items| ==> r[j].name == items[j].name != it.name;
    }
  }

  /** Where a label is, or the length. */
  function Place(items: seq<Item>, l: string): (i: nat)
    ensures i <= |items| && (i < |items| ==> items[i].name == l)
    ensures forall j :: 0 <= j < i ==> items[j].name != l
  {
    if items == [] || items[0].name == l then 0 else 1 + Place(items[1..], l)
  }

  /** A stored status is restored when a status that was never set is added for the first time. */
  function Reconstituted(items: seq<Item>, saved: map<string, (string, string)>, it: Item): Item {
    if it.neverSet && it.name in saved && it.name !in Names(items)
    then it.(status := FromName(saved[it.name].0, saved[it.name].1)) else it
  }

  function Added(items: seq<Item>, saved: map<string, (string, string)>, it: Item): seq<Item> {
    Put(items, Reconstituted(items, saved, it))
  }

  /** What a commit stores. */
  function Saved(items: seq<Item>): map<string, (string, string)> {
    if items == [] then map[]
    else Saved(Front(items))[Last(items).name := (Name(Last(items).status), Message(Last(items).status))]
  }

  // ---------------------------------------------------------------- the objects

  class Status {
    const name: string
    const rank: int
    var neverSet: bool
    var status: Value
    var pool: StatusPool?

    constructor (name: string, rank: int)
      ensures View() == Item(name, rank, true, Unknown) && pool == null
    {
      this.name, this.rank := name, rank;
      neverSet, status, pool := true, Unknown, null;
    }

    function View(): Item
      reads this
    {
      Item(name, rank, neverSet, status)
    }

    /** `set`: stores the status and tells the pool. */
    method Set(v: Value)
      requires pool != null ==> pool.Valid()
      modifies this, pool
      ensures pool == old(pool) && View() == Item(name, rank, false, v)
      ensures pool != null ==> pool.Valid() && pool.members == old(pool.members) && pool.saved == old(pool.saved)
      ensures pool != null ==> pool.stored == old(pool.stored)
      ensures pool != null ==> pool.unitStatus == Displayed(pool.Items(), old(pool.unitStatus))
    {
      status := v;
      neverSet := false;
      if pool != null {
        assert forall i :: 0 <= i < |pool.members| ==> pool.Items()[i].name == old(pool.Items())[i].name;
        pool.OnUpdate();
      }
    }
  }

  function Views(members: seq<Status>): (items: seq<Item>)
    reads members
    ensures |items| == |members|
    ensures forall i :: 0 <= i < |members| ==> items[i] == members[i].View()
  {
    seq(|members|, i requires 0 <= i < |members| reads members => members[i].View())
  }

  /** `d[name] = s`: in the place of the one entry of that name, or at the end. */
  predicate IsPut(before: seq<Status>, s: Status, after: seq<Status>) {
    if exists i :: 0 <= i < |before| && before[i].name == s.name then
      && |after| == |before|
      && forall i :: 0 <= i < |before| ==> after[i] == if before[i].name == s.name then s else before[i]
    else after == before + [s]
  }

  lemma PutIsThere(before: seq<Status>, s: Status, i: nat)
    requires i <= |before| && (i < |before| ==> before[i].name == s.name)
    requires forall j :: 0 <= j < |before| && j != i ==> before[j].name != s.name
    ensures IsPut(before, s, if i < |before| then before[i := s] else before + [s])
  {
  }

  class StatusPool {
    /** The dict of statuses, in insertion order. */
    var members: seq<Status>
    /** The state of the previous hook, and the snapshot for the next one. */
    var saved: map<string, (string, string)>
    var stored: map<string, (string, string)>
    var unitStatus: Value

    constructor (snapshot: map<string, (string, string)>, unitStatus: Value)
      ensures Valid() && members == [] && saved == snapshot && stored == snapshot && this.unitStatus == unitStatus
    {
      members, saved, stored := [], snapshot, snapshot;
      this.unitStatus := unitStatus;
    }

    ghost function Items(): (items: seq<Item>)
      reads this`members, members
      ensures |items| == |members|
      ensures forall i :: 0 <= i < |members| ==> items[i] == members[i].View()
    {
      Views(members)
    }

    ghost predicate Linked()
      reads this`members, members
    {
      Distinct(Items()) && forall s :: s in members ==> s.pool == this
    }

    ghost predicate Valid()
      reads this, members
    {
      Linked() && ShowsTheTop(Items(), unitStatus)
    }

    /** `self._pool.values()` as values. */
    method Values() returns (items: seq<Item>)
      ensures items == Items()
    {
      items := [];
      for i := 0 to |members|
        invariant items == Items()[..i]
      {
        items := items + [members[i].View()];
      }
    }

    method OnUpdate()
      requires Linked()
      modifies this`unitStatus
      ensures Valid() && unitStatus == Displayed(Items(), old(unitStatus))
    {
      var items := Values();
      var computed := ComputeStatus(items);
      UpdateShowsTheTop(items, unitStatus);
      if computed.Some? && !computed.value.Active? {
        unitStatus := computed.value;
      }
    }

    /** Where the dict has a label. */
    method Lookup(name: string) returns (i: nat)
      ensures i == Place(Items(), name) && (i < |members| <==> name in Names(Items()))
    {
      ghost var items := Items();
      i := 0;
      while i < |members| && members[i].name != name
        invariant i <= |members| && forall j :: 0 <= j < i ==> items[j].name != name
      {
        i := i + 1;
      }
      if i == |members| {
        PlaceOfNew(items, name);
      } else {
        assert items[i] in items;
      }
    }

    /** `add`. */
    method Add(s: Status)
      requires Valid()
      modifies this, s
      ensures Valid() && s.pool == this && saved == old(saved) && stored == old(stored)
      ensures Items() == Added(old(Items()), saved, old(s.View()))
      ensures unitStatus == Displayed(Items(), old(unitStatus))
      ensures s.neverSet == old(s.neverSet)
      ensures s.status == if old(s.neverSet) && s.name in saved && s.name !in Names(old(Items()))
                          then FromName(saved[s.name].0, saved[s.name].1) else old(s.status)
      ensures IsPut(old(members), s, members)
    {
      Enter(s);
      OnUpdate();
    }

    /** Everything but the update of the unit status. */
    method Enter(s: Status)
      requires Linked()
      modifies this`members, s
      ensures Linked() && s.pool == this && Items() == Added(old(Items()), saved, old(s.View()))
      ensures s.neverSet == old(s.neverSet)
      ensures s.status == if old(s.neverSet) && s.name in saved && s.name !in Names(old(Items()))
                          then FromName(saved[s.name].0, saved[s.name].1) else old(s.status)
      ensures IsPut(old(members), s, members)
    {
      ghost var before := Items();
      var i := Lookup(s.name);
      forall j | 0 <= j < |members| && j != i ensures members[j].name != s.name {
        assert before[j].name == members[j].name;
      }
      PutIsThere(members, s, i);
      Reconstitute(s, i == |members|, before);
      Store(s, i, before);
    }

    method Reconstitute(s: Status, isNew: bool, ghost before: seq<Item>)
      requires isNew <==> s.name !in Names(before)
      modifies s`status
      ensures s.View() == Reconstituted(before, saved, old(s.View())) && s.neverSet == old(s.neverSet)
      ensures s.status == if old(s.neverSet) && s.name in saved && isNew
                          then FromName(saved[s.name].0, saved[s.name].1) else old(s.status)
    {
      if s.neverSet && s.name in saved && isNew {
        s.status := FromName(saved[s.name].0, saved[s.name].1);
      }
    }

    /** `self._pool[status.label] = status`, with the callback. */
    method Store(s: Status, i: nat, ghost before: seq<Item>)
      requires |before| == |members| && Distinct(before) && i == Place(before, s.name)
      requires forall j :: 0 <= j < |members| ==> members[j].pool == this
      requires forall j :: 0 <= j < |members| && members[j] != s ==> members[j].View() == before[j]
      requires forall j :: 0 <= j < |members| ==> members[j].name == before[j].name
      modifies this`members, s`pool
      ensures Linked() && s.pool == this && Items() == Put(before, s.View()) && s.View() == old(s.View())
      ensures members == if i < |before| then old(members)[i := s] else old(members) + [s]
    {
      PutKeepsDistinct(before, s.View());
      members := if i < |members| then members[i := s] else members + [s];
      s.pool := this;
      forall j | 0 <= j < |members| && j != i ensures Items()[j] == before[j] {
        assert before[j].name != s.name;
      }
    }

    /** `_on_commit`: the dict comprehension over the statuses. */
    method OnCommit()
      modifies this`stored
      ensures stored == Saved(Items())
    {
      var items := Values();
      var state: map<string, (string, string)> := map[];
      for i := 0 to |items|
        invariant state == Saved(items[..i])
      {
        assert Front(items[..i + 1]) == items[..i];
        state := state[items[i].name := (Name(items[i].status), Message(items[i].status))];
      }
      assert items[..|items|] == items && Items() == items;
      stored := state;
    }
  }

  // ---------------------------------------------------------------- any sequence of add and set

  datatype Op = AddStatus(it: Item) | SetStatus(l: string, v: Value)

  datatype Pool = Pool(items: seq<Item>, unitStatus: Value)

  function ItemsAfter(items: seq<Item>, saved: map<string, (string, string)>, op: Op): seq<Item> {
    match op
    case AddStatus(it) => Added(items, saved, it)
    case SetStatus(l, v) =>
      var i := Place(items, l);
      if i < |items| then items[i := items[i].(status := v, neverSet := false)] else items
  }

  function Exec(saved: map<string, (string, string)>, start: Value, ops: seq<Op>): Pool {
    if ops == [] then Pool([], start)
    else
      var p := Exec(saved, start, Front(ops));
      var items := ItemsAfter(p.items, saved, Last(ops));
      Pool(items, Displayed(items, p.unitStatus))
  }

  lemma StepKeepsDistinct(items: seq<Item>, saved: map<string, (string, string)>, op: Op)
    requires Distinct(items)
    ensures Distinct(ItemsAfter(items, saved, op))
  {
    match op
    case AddStatus(it) => PutKeepsDistinct(items, Reconstituted(items, saved, it));
    case SetStatus(l, v) =>
      assert forall j :: 0 <= j < |items| ==> ItemsAfter(items, saved, op)[j].name == items[j].name;
  }

  /** Whatever was stored and shown before the hook, after any adds and sets the labels are distinct
      and the unit shows the top of the pool whenever anything is wrong. */
  lemma {:induction false} EveryRunShowsTheTop(saved: map<string, (string, string)>, start: Value, ops: seq<Op>)
    ensures var p := Exec(saved, start, ops); Distinct(p.items) && ShowsTheTop(p.items, p.unitStatus)
  {
    if ops != [] {
      EveryRunShowsTheTop(saved, start, Front(ops));
      var p := Exec(saved, start, Front(ops));
      StepKeepsDistinct(p.items, saved, Last(ops));
      UpdateShowsTheTop(ItemsAfter(p.items, saved, Last(ops)), p.unitStatus);
    }
  }

  // ---------------------------------------------------------------- commit, reload, add again

  function AddAll(saved: map<string, (string, string)>, fs: seq<Item>): seq<Item> {
    if fs == [] then [] else Added(AddAll(saved, Front(fs)), saved, Last(fs))
  }

  /** A new object for the same label and rank. */
  function AsNew(it: Item): Item { it.(neverSet := true, status := Unknown) }

  /** New objects for exactly the labels of the pool, in some order. */
  predicate Recreates(fs: seq<Item>, items: seq<Item>) {
    Distinct(fs) && Elements(fs) == NewOnes(items)
  }

  function Elements(fs: seq<Item>): set<Item> { set f | f in fs }
  function NewOnes(items: seq<Item>): set<Item> { set it | it in items :: AsNew(it) }

  function Restored(saved: map<string, (string, string)>, f: Item): Item {
    if f.name in saved then f.(status := FromName(saved[f.name].0, saved[f.name].1)) else f
  }

  /** The entry without the mark of having been set in this hook. */
  function Plain(it: Item): Item { it.(neverSet := true) }

  function Contents(items: seq<Item>): set<Item> {
    set it | it in items :: Plain(it)
  }

  lemma NamesRestore(v: Value)
    ensures FromName(Name(v), Message(v)) == v
  {
  }

  lemma {:induction false} SavedIs(items: seq<Item>, it: Item)
    requires Distinct(items) && it in items
    ensures Restored(Saved(items), AsNew(it)) == Plain(it)
  {
    if it == Last(items) {
      NamesRestore(it.status);
    } else {
      assert it in Front(items);
      SavedIs(Front(items), it);
      var i :| 0 <= i < |items| - 1 && items[i] == it;
      assert Last(items).name != it.name;
      SavedNames(Front(items), it);
    }
  }

  lemma {:induction false} SavedNames(items: seq<Item>, it: Item)
    requires it in items
    ensures it.name in Saved(items)
  {
    if it != Last(items) {
      assert it in Front(items);
      SavedNames(Front(items), it);
    }
  }

  lemma PlaceOfNew(items: seq<Item>, name: string)
    requires forall j :: 0 <= j < |items| ==> items[j].name != name
    ensures Place(items, name) == |items| && name !in Names(items)
  {
  }

  lemma AddedNew(items: seq<Item>, saved: map<string, (string, string)>, f: Item)
    requires f.neverSet && forall j :: 0 <= j < |items| ==> items[j].name != f.name
    ensures Added(items, saved, f) == items + [Restored(saved, f)]
  {
    PlaceOfNew(items, f.name);
  }

  predicate AreRestored(saved: map<string, (string, string)>, fs: seq<Item>, items: seq<Item>) {
    |items| == |fs| && forall i :: 0 <= i < |fs| ==> items[i] == Restored(saved, fs[i])
  }

  lemma OneMoreRestored(saved: map<string, (string, string)>, fs: seq<Item>, before: seq<Item>)
    requires fs != [] && Distinct(fs) && Last(fs).neverSet && AreRestored(saved, Front(fs), before)
    ensures AreRestored(saved, fs, Added(before, saved, Last(fs)))
  {
    forall j | 0 <= j < |before| ensures before[j].name != Last(fs).name {
      assert before[j] == Restored(saved, Front(fs)[j]) && Front(fs)[j] == fs[j];
    }
    AddedNew(before, saved, Last(fs));
  }

  lemma {:induction false} AddAllRestores(saved: map<string, (string, string)>, fs: seq<Item>)
    requires Distinct(fs) && forall f :: f in fs ==> f.neverSet
    ensures AreRestored(saved, fs, AddAll(saved, fs))
  {
    if fs != [] {
      AddAllRestores(saved, Front(fs));
      assert Last(fs) in fs;
      OneMoreRestored(saved, fs, AddAll(saved, Front(fs)));
    }
  }

  /** Commit, reload and adding the labels again in any order restores every status and message. */
  lemma ReloadRestores(items: seq<Item>, fs: seq<Item>)
    requires Distinct(items) && Recreates(fs, items)
    ensures Contents(AddAll(Saved(items), fs)) == Contents(items)
    ensures |AddAll(Saved(items), fs)| == |fs|
  {
    var saved := Saved(items);
    forall f | f in fs
      ensures f.neverSet && exists it :: it in items && AsNew(it) == f && Restored(saved, f) == Plain(it)
    {
      var it := AtItem(fs, items, f);
      SavedIs(items, it);
    }
    AddAllRestores(saved, fs);
    var again := AddAll(saved, fs);
    forall x | x in Contents(items) ensures x in Contents(again) {
      var it :| it in items && Plain(it) == x;
      SavedIs(items, it);
      assert AsNew(it) in NewOnes(items) && AsNew(it) in Elements(fs);
      var j :| 0 <= j < |fs| && fs[j] == AsNew(it);
      assert again[j] == x && Plain(x) == x;
    }
    forall x | x in Contents(again) ensures x in Contents(items) {
      var y :| y in again && Plain(y) == x;
      var j :| 0 <= j < |again| && again[j] == y;
      assert fs[j] in fs;
      var it :| it in items && AsNew(it) == fs[j] && Restored(saved, fs[j]) == Plain(it);
      assert Plain(Plain(it)) == Plain(it);
    }
  }

  lemma AtItem(fs: seq<Item>, items: seq<Item>, f: Item) returns (it: Item)
    requires Recreates(fs, items) && f in fs
    ensures it in items && AsNew(it) == f
  {
    assert f in Elements(fs) && f in NewOnes(items);
    it :| it in items && AsNew(it) == f;
  }

  /** Nothing in the pool comes before `it`. */
  predicate Minimal(items: seq<Item>, it: Item) {
    it in items && forall x :: x in items ==> !Before(x, it)
  }

  /** All entries tied for the top would show the same. */
  ghost predicate TiesShowTheSame(items: seq<Item>) {
    forall x, y :: Minimal(items, x) && Minimal(items, y) ==> Labelled(x) == Labelled(y)
  }

  lemma ComputedIsMinimal(items: seq<Item>) returns (it: Item)
    requires items != []
    ensures Minimal(items, it) && ComputeStatus(items) == Labelled(it)
  {
    var i := HeadIsTop(items);
    it := items[i];
    forall x | x in items ensures !Before(x, it) {
      var j :| 0 <= j < |items| && items[j] == x;
      assert j < i ==> Before(it, x);
    }
  }

  lemma MinimalMoves(a: seq<Item>, b: seq<Item>, y: Item) returns (x: Item)
    requires Contents(a) == Contents(b) && Minimal(b, y)
    ensures Minimal(a, x) && Plain(x) == Plain(y)
  {
    assert Plain(y) in Contents(b);
    x :| x in a && Plain(x) == Plain(y);
    forall z | z in a ensures !Before(z, x) {
      assert Plain(z) in Contents(a);
      var w :| w in b && Plain(w) == Plain(z);
      assert !Before(w, y);
    }
  }

  /** If entries tied for the top show the same, so does the pool after the reload. */
  lemma ReloadShowsTheSame(items: seq<Item>, fs: seq<Item>)
    requires Distinct(items) && Recreates(fs, items) && TiesShowTheSame(items)
    ensures ComputeStatus(AddAll(Saved(items), fs)) == ComputeStatus(items)
  {
    ReloadRestores(items, fs);
    SameContentsSameStatus(items, AddAll(Saved(items), fs));
  }

  lemma SameContentsSameStatus(items: seq<Item>, again: seq<Item>)
    requires Contents(again) == Contents(items) && TiesShowTheSame(items)
    ensures ComputeStatus(again) == ComputeStatus(items)
  {
    NoContents(again);
    NoContents(items);
    if items != [] {
      var y := ComputedIsMinimal(again);
      var x := MinimalMoves(items, again, y);
      var z := ComputedIsMinimal(items);
      assert Labelled(x) == Labelled(y);
    }
  }

  lemma NoContents(items: seq<Item>)
    ensures Contents(items) == {} <==> items == []
  {
    if items != [] {
      assert Plain(items[0]) in Contents(items);
    }
  }

  function AllNew(items: seq<Item>): (fs: seq<Item>)
    ensures |fs| == |items|
    ensures forall i :: 0 <= i < |items| ==> fs[i] == AsNew(items[i])
  {
    seq(|items|, i requires 0 <= i < |items| => AsNew(items[i]))
  }

  /** Recreated with entry `i` in front. */
  function FrontLoaded(items: seq<Item>, i: nat): (fs: seq<Item>)
    requires i < |items|
    ensures |fs| == |items| && fs[0] == AsNew(items[i])
    ensures forall k :: 0 < k < |items| ==> fs[k] == AsNew(items[if k <= i then k - 1 else k])
  {
    [AsNew(items[i])] + AllNew(items[..i]) + AllNew(items[i + 1..])
  }

  lemma MovedFirst(items: seq<Item>, i: nat)
    requires Distinct(items) && i < |items|
    ensures Recreates(FrontLoaded(items, i), items)
  {
    var fs := FrontLoaded(items, i);
    forall f | f in fs ensures exists it :: it in items && AsNew(it) == f {
      var k :| 0 <= k < |fs| && fs[k] == f;
      assert items[if k == 0 then i else if k <= i then k - 1 else k] in items;
    }
    forall it | it in items ensures AsNew(it) in fs {
      var k :| 0 <= k < |items| && items[k] == it;
      assert fs[if k == i then 0 else if k < i then k + 1 else k] == AsNew(it);
    }
  }

  /** The order that adds a minimal entry first shows that entry. */
  lemma AddedFirstIsShown(items: seq<Item>, it: Item) returns (fs: seq<Item>)
    requires Distinct(items) && Minimal(items, it)
    ensures Recreates(fs, items) && ComputeStatus(AddAll(Saved(items), fs)) == Labelled(it)
  {
    var i :| 0 <= i < |items| && items[i] == it;
    fs := FrontLoaded(items, i);
    MovedFirst(items, i);
    FirstIsRestored(items, fs, it);
    ReloadRestores(items, fs);
    FirstMinimalIsShown(AddAll(Saved(items), fs), items, it);
  }

  lemma FirstIsRestored(items: seq<Item>, fs: seq<Item>, it: Item)
    requires Distinct(items) && Recreates(fs, items) && it in items && fs != [] && fs[0] == AsNew(it)
    ensures |AddAll(Saved(items), fs)| == |fs| && AddAll(Saved(items), fs)[0] == Plain(it)
  {
    forall f | f in fs ensures f.neverSet {
      var x := AtItem(fs, items, f);
    }
    AddAllRestores(Saved(items), fs);
    SavedIs(items, it);
  }

  lemma FirstMinimalIsShown(again: seq<Item>, items: seq<Item>, it: Item)
    requires Contents(again) == Contents(items) && Minimal(items, it) && again != [] && again[0] == Plain(it)
    ensures ComputeStatus(again) == Labelled(it)
  {
    var y := MinimalMoves(again, items, it);
    var j := HeadIsTop(again);
    assert again[j] in again && !Before(again[j], y);
    assert j > 0 ==> Before(again[j], again[0]);
  }

  /** The computed status survives every order of re-adding exactly if the entries tied for the top
      would show the same. */
  lemma ReloadShowsTheSameIff(items: seq<Item>)
    requires Distinct(items)
    ensures TiesShowTheSame(items) <==>
            forall fs :: Recreates(fs, items) ==> ComputeStatus(AddAll(Saved(items), fs)) == ComputeStatus(items)
  {
    if TiesShowTheSame(items) {
      forall fs | Recreates(fs, items) ensures ComputeStatus(AddAll(Saved(items), fs)) == ComputeStatus(items) {
        ReloadShowsTheSame(items, fs);
      }
    } else {
      var x, y :| Minimal(items, x) && Minimal(items, y) && Labelled(x) != Labelled(y);
      var fs := AddedFirstIsShown(items, x);
      var gs := AddedFirstIsShown(items, y);
    }
  }

  /** In particular when no two entries are tied. */
  lemma NoTiesShowTheSame(items: seq<Item>)
    requires forall x, y :: x in items && y in items && x != y ==> Before(x, y) || Before(y, x)
    ensures TiesShowTheSame(items)
  {
    forall x, y | Minimal(items, x) && Minimal(items, y) ensures x == y {
      assert x in items && y in items;
    }
  }
}
