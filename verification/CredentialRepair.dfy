/** Repair of the credentials nodes refer to: old-style references by name, and
    references by an id that no longer exists, are looked up in the credential table.

    Two caches keep the number of queries down. The cache of ids keeps failures too,
    under the name the failing reference came with, and this makes the outcome depend
    on the references met before; what is proved is exactly when it does not. */
module CredentialRepair {
  import opened Wrappers

  datatype Details = Details(id: Option<string>, name: string)

  /** What a node holds per credential type: nothing, a bare name, or a reference. */
  datatype Credential = Missing | BareName(name: string) | Reference(details: Details)

  datatype Entry = Entry(kind: string, credential: Credential)

  datatype Node = Node(disabled: bool, credentials: Option<seq<Entry>>)

  datatype Row = Row(id: string, name: string, kind: string)

  datatype Query =
    | LegacyByName(kind: string, name: string)
    | ById(kind: string, id: string)
    | ByName(kind: string, name: string)

  // ---------- The credential table ----------

  ghost predicate UniqueIds(table: seq<Row>) {
    forall i, j :: 0 <= i < j < |table| ==> table[i].id != table[j].id
  }

  function FindBy(table: seq<Row>, name: string, kind: string): (rows: seq<Row>)
    ensures forall row :: row in rows <==> row in table && row.name == name && row.kind == kind
  {
    if table == [] then []
    else if table[0].name == name && table[0].kind == kind then [table[0]] + FindBy(table[1..], name, kind)
    else FindBy(table[1..], name, kind)
  }

  function FindOneBy(table: seq<Row>, id: string, kind: string): (row: Option<Row>)
    ensures row.Some? ==> row.value in table && row.value.id == id && row.value.kind == kind
    ensures row.None? ==> forall r :: r in table ==> r.id != id || r.kind != kind
  {
    if table == [] then None
    else if table[0].id == id && table[0].kind == kind then Some(table[0])
    else FindOneBy(table[1..], id, kind)
  }

  lemma FindsTheRow(table: seq<Row>, row: Row)
    requires UniqueIds(table) && row in table
    ensures FindOneBy(table, row.id, row.kind) == Some(row)
  {
    var found := FindOneBy(table, row.id, row.kind);
    var i :| 0 <= i < |table| && table[i] == row;
    var j :| 0 <= j < |table| && table[j] == found.value;
    assert i == j;
  }

  // ---------- Reference: one credential on its own, no caches ----------

  function DetailsOf(row: Row): Details {
    Details(Some(row.id), row.name)
  }

  /** By id if there is one and it exists, else by name if exactly one row has it. */
  function Resolve(table: seq<Row>, kind: string, d: Details): Details {
    if d.id.Some? && FindOneBy(table, d.id.value, kind).Some? then
      DetailsOf(FindOneBy(table, d.id.value, kind).value)
    else if |FindBy(table, d.name, kind)| == 1 then
      DetailsOf(FindBy(table, d.name, kind)[0])
    else d
  }

  // ---------- The references of a workflow, in the order they are met ----------

  datatype Slot = Slot(kind: string, details: Details)

  /** A bare name reads as a reference without an id. */
  function SlotsOf(entries: seq<Entry>): seq<Slot> {
    if entries == [] then []
    else
      var last := entries[|entries| - 1];
      SlotsOf(entries[..|entries| - 1]) +
      match last.credential
      case Missing => []
      case BareName(name) => [Slot(last.kind, Details(None, name))]
      case Reference(details) => [Slot(last.kind, details)]
  }

  function SlotOf(entry: Entry): Slot
    requires entry.credential != Missing
  {
    Slot(entry.kind, if entry.credential.BareName? then Details(None, entry.credential.name)
        else entry.credential.details)
  }

  predicate Skipped(node: Node) {
    node.disabled || node.credentials.None?
  }

  function SlotsOfNode(node: Node): seq<Slot> {
    if Skipped(node) then [] else SlotsOf(node.credentials.value)
  }

  function References(nodes: seq<Node>): seq<Slot> {
    if nodes == [] then []
    else
      var last := nodes[|nodes| - 1];
      References(nodes[..|nodes| - 1]) + SlotsOfNode(last)
  }

  function ResolveAll(table: seq<Row>, slots: seq<Slot>): seq<Slot> {
    if slots == [] then []
    else
      var last := slots[|slots| - 1];
      ResolveAll(table, slots[..|slots| - 1]) + [Slot(last.kind, Resolve(table, last.kind, last.details))]
  }

  // ---------- What the caches make of it ----------

  predicate Fails(table: seq<Row>, slot: Slot) {
    && slot.details.id.Some?
    && FindOneBy(table, slot.details.id.value, slot.kind).None?
    && |FindBy(table, slot.details.name, slot.kind)| != 1
  }

  /** The name under which a reference by this id first failed, if one did. */
  function FirstFailure(table: seq<Row>, seen: seq<Slot>, kind: string, id: string): Option<string> {
    if seen == [] then None
    else
      var earlier := FirstFailure(table, seen[..|seen| - 1], kind, id);
      var last := seen[|seen| - 1];
      if earlier.None? && last.kind == kind && last.details.id == Some(id) && Fails(table, last) then
        Some(last.details.name)
      else earlier
  }

  /** A reference whose id failed before takes the name it failed under. */
  function Outcome(table: seq<Row>, seen: seq<Slot>, slot: Slot): Slot {
    if slot.details.id.Some?
       && FindOneBy(table, slot.details.id.value, slot.kind).None?
       && FirstFailure(table, seen, slot.kind, slot.details.id.value).Some?
    then Slot(slot.kind, Details(slot.details.id, FirstFailure(table, seen, slot.kind, slot.details.id.value).value))
    else Slot(slot.kind, Resolve(table, slot.kind, slot.details))
  }

  function Outcomes(table: seq<Row>, slots: seq<Slot>): (r: seq<Slot>)
    ensures |r| == |slots|
  {
    if slots == [] then []
    else Outcomes(table, slots[..|slots| - 1]) + [Outcome(table, slots[..|slots| - 1], slots[|slots| - 1])]
  }

  /** Once a reference failed, every later one with its type and id bears its name. */
  ghost predicate FailuresKeepTheirName(table: seq<Row>, slots: seq<Slot>) {
    forall i, j :: 0 <= i < j < |slots| && Fails(table, slots[i])
                   && slots[j].kind == slots[i].kind && slots[j].details.id == slots[i].details.id
                   ==> slots[j].details.name == slots[i].details.name
  }

  ghost predicate SameIdSameName(slots: seq<Slot>) {
    forall i, j :: 0 <= i < j < |slots| && slots[i].details.id.Some?
                   && slots[j].kind == slots[i].kind && slots[j].details.id == slots[i].details.id
                   ==> slots[j].details.name == slots[i].details.name
  }

  lemma {:induction false} FirstFailureOccurs(table: seq<Row>, seen: seq<Slot>, kind: string, id: string)
      returns (i: nat)
    requires FirstFailure(table, seen, kind, id).Some?
    ensures i < |seen| && Fails(table, seen[i])
    ensures seen[i] == Slot(kind, Details(Some(id), FirstFailure(table, seen, kind, id).value))
    ensures FirstFailure(table, seen[..i], kind, id).None?
  {
    var init := seen[..|seen| - 1];
    if FirstFailure(table, init, kind, id).Some? {
      i := FirstFailureOccurs(table, init, kind, id);
      assert init[..i] == seen[..i];
    } else {
      i := |seen| - 1;
    }
  }

  lemma {:induction false} FailureIsNoticed(table: seq<Row>, seen: seq<Slot>, i: nat)
    requires i < |seen| && Fails(table, seen[i])
    ensures FirstFailure(table, seen, seen[i].kind, seen[i].details.id.value).Some?
  {
    var init := seen[..|seen| - 1];
    if i < |init| {
      assert init[i] == seen[i];
      FailureIsNoticed(table, init, i);
    }
  }

  /** The outcome of the last reference is that of the uncached lookup exactly when
      no earlier failure gave its id another name. */
  lemma OutcomeAgrees(table: seq<Row>, seen: seq<Slot>, slot: Slot)
    requires FailuresKeepTheirName(table, seen)
    ensures Outcome(table, seen, slot).details == Resolve(table, slot.kind, slot.details)
       <==> FailuresKeepTheirName(table, seen + [slot])
  {
    var all := seen + [slot];
    if slot.details.id.Some? && FindOneBy(table, slot.details.id.value, slot.kind).None? {
      var id := slot.details.id.value;
      var failure := FirstFailure(table, seen, slot.kind, id);
      if failure.Some? {
        var i := FirstFailureOccurs(table, seen, slot.kind, id);
        assert all[i] == seen[i] && all[|seen|] == slot;
        assert |FindBy(table, slot.details.name, slot.kind)| == 1 ==>
            FindBy(table, slot.details.name, slot.kind)[0] in table;
        if failure.value == slot.details.name {
          forall k | 0 <= k < |seen| && Fails(table, seen[k]) && seen[k].kind == slot.kind
              && seen[k].details.id == slot.details.id
            ensures seen[k].details.name == slot.details.name
          {
            assert k < i ==> seen[i].details.name == seen[k].details.name;
            assert i < k ==> seen[k].details.name == seen[i].details.name;
          }
        }
      } else {
        forall k | 0 <= k < |seen| && seen[k].kind == slot.kind && seen[k].details.id == slot.details.id
          ensures !Fails(table, seen[k])
        {
          if Fails(table, seen[k]) {
            FailureIsNoticed(table, seen, k);
          }
        }
      }
    } else {
      forall k | 0 <= k < |seen| && seen[k].kind == slot.kind && seen[k].details.id == slot.details.id
        ensures !Fails(table, seen[k])
      {
      }
    }
  }

  /** The cached repair agrees with resolving every reference on its own if and only
      if references that fail keep their name wherever their id returns. */
  lemma {:induction false} CachedAgreesExactlyWhen(table: seq<Row>, slots: seq<Slot>)
    ensures Outcomes(table, slots) == ResolveAll(table, slots) <==> FailuresKeepTheirName(table, slots)
  {
    if slots != [] {
      var init, last := slots[..|slots| - 1], slots[|slots| - 1];
      assert slots == init + [last];
      CachedAgreesExactlyWhen(table, init);
      SameLength(table, init);
      var a, b := Outcomes(table, slots), ResolveAll(table, slots);
      assert a[..|init|] == Outcomes(table, init) && b[..|init|] == ResolveAll(table, init);
      assert a[|init|] == Outcome(table, init, last);
      assert b[|init|] == Slot(last.kind, Resolve(table, last.kind, last.details));
      if FailuresKeepTheirName(table, init) {
        OutcomeAgrees(table, init, last);
      } else {
        assert !FailuresKeepTheirName(table, slots) by {
          assert forall k :: 0 <= k < |init| ==> slots[k] == init[k];
        }
      }
    }
  }

  lemma {:induction false} SameLength(table: seq<Row>, slots: seq<Slot>)
    ensures |ResolveAll(table, slots)| == |slots|
  {
    if slots != [] {
      SameLength(table, slots[..|slots| - 1]);
    }
  }

  /** In particular when references sharing type and id share the name. */
  lemma CachedAgreesWhenIdsNameAlike(table: seq<Row>, slots: seq<Slot>)
    requires SameIdSameName(slots)
    ensures Outcomes(table, slots) == ResolveAll(table, slots)
  {
    CachedAgreesExactlyWhen(table, slots);
  }

  /** Two references to a vanished id: resolved on its own the second finds the one
      credential of its name, after the first it is given the first one's name. */
  lemma OrderCanMatter()
    ensures var table := [Row("7", "new", "api")];
            var slots := [Slot("api", Details(Some("1"), "old")), Slot("api", Details(Some("1"), "new"))];
            && ResolveAll(table, slots)[1..] == [Slot("api", Details(Some("7"), "new"))]
            && Outcomes(table, slots)[1..] == [Slot("api", Details(Some("1"), "old"))]
  {
    var table := [Row("7", "new", "api")];
    var first, second := Slot("api", Details(Some("1"), "old")), Slot("api", Details(Some("1"), "new"));
    var slots := [first, second];
    assert slots[..1] == [first] && [first][..0] == [];
    assert table[1..] == [];
    assert FindBy(table, "new", "api") == [table[0]] && FindBy(table, "old", "api") == [];
    assert FirstFailure(table, [first], "api", "1") == Some("old");
    SameLength(table, [first]);
  }

  // ---------- What becomes of a reference, in terms of the table's rows ----------

  /** The one row of that name and type. */
  ghost predicate IsOnly(table: seq<Row>, i: int, name: string, kind: string) {
    && 0 <= i < |table| && table[i].name == name && table[i].kind == kind
    && forall j :: 0 <= j < |table| && table[j].name == name && table[j].kind == kind ==> j == i
  }

  lemma {:induction false} FindByOnly(table: seq<Row>, name: string, kind: string)
    ensures forall i :: IsOnly(table, i, name, kind) ==> FindBy(table, name, kind) == [table[i]]
    ensures |FindBy(table, name, kind)| == 1 ==> exists i :: IsOnly(table, i, name, kind)
  {
    if table != [] {
      var rest := table[1..];
      FindByOnly(rest, name, kind);
      assert forall i :: 0 <= i < |rest| ==> rest[i] == table[i + 1];
      if table[0].name == name && table[0].kind == kind {
        forall i | IsOnly(table, i, name, kind)
          ensures i == 0 && FindBy(rest, name, kind) == []
        {
          assert FindBy(rest, name, kind) != [] ==> FindBy(rest, name, kind)[0] in rest;
        }
        if |FindBy(table, name, kind)| == 1 {
          OnlyAtFront(table, name, kind);
        }
      } else {
        forall i | IsOnly(table, i, name, kind)
          ensures FindBy(rest, name, kind) == [table[i]]
        {
          assert IsOnly(rest, i - 1, name, kind);
        }
        if i :| IsOnly(rest, i, name, kind) {
          assert IsOnly(table, i + 1, name, kind);
        }
      }
    }
  }

  lemma OnlyAtFront(table: seq<Row>, name: string, kind: string)
    requires table != [] && table[0].name == name && table[0].kind == kind && FindBy(table[1..], name, kind) == []
    ensures IsOnly(table, 0, name, kind)
  {
    assert forall j :: 0 < j < |table| ==> table[j] in table[1..];
  }

  /** A reference without an id takes id and name of the only row of its name and type, and
      stays without an id if there are none or several. */
  ghost predicate LegacyRight(table: seq<Row>, kind: string, name: string, before: Credential, after: Credential) {
    && (forall i :: IsOnly(table, i, name, kind) ==> after == Reference(Details(Some(table[i].id), table[i].name)))
    && ((forall i :: !IsOnly(table, i, name, kind)) ==> after == before || after == Reference(Details(None, name)))
  }

  /** It names an id no row has, and no row either by its name alone. */
  ghost predicate IsHopeless(table: seq<Row>, slot: Slot, kind: string, id: string) {
    && slot.kind == kind && slot.details.id == Some(id)
    && (forall row :: row in table ==> row.id != id || row.kind != kind)
    && (forall i :: !IsOnly(table, i, slot.details.name, kind))
  }

  /** A reference with an id takes the name of the row of that id and type, if there is one.
      If not, it becomes like the first of the same id and type that was hopeless. If none
      was, it takes id and name of the only row of its name and type, or stays. */
  ghost predicate ByIdRight(table: seq<Row>, seen: seq<Slot>, kind: string, id: string, name: string,
                            after: Credential) {
    && (forall row :: row in table && row.id == id && row.kind == kind ==>
          after == Reference(Details(Some(id), row.name)))
    && ((forall row :: row in table ==> row.id != id || row.kind != kind) ==>
          && (forall k :: 0 <= k < |seen| && IsHopeless(table, seen[k], kind, id)
                          && (forall l :: 0 <= l < k ==> !IsHopeless(table, seen[l], kind, id)) ==>
                            after == Reference(Details(Some(id), seen[k].details.name)))
          && ((forall k :: 0 <= k < |seen| ==> !IsHopeless(table, seen[k], kind, id)) ==>
                && (forall i :: IsOnly(table, i, name, kind) ==>
                      after == Reference(Details(Some(table[i].id), table[i].name)))
                && ((forall i :: !IsOnly(table, i, name, kind)) ==> after == Reference(Details(Some(id), name)))))
  }

  ghost predicate EntryRight(table: seq<Row>, seen: seq<Slot>, before: Entry, after: Entry) {
    && after.kind == before.kind
    && match before.credential
       case Missing => after.credential == Missing
       case BareName(name) => LegacyRight(table, before.kind, name, before.credential, after.credential)
       case Reference(Details(None, name)) =>
         LegacyRight(table, before.kind, name, before.credential, after.credential)
       case Reference(Details(Some(id), name)) => ByIdRight(table, seen, before.kind, id, name, after.credential)
  }

  lemma ResolveMeans(table: seq<Row>, kind: string, name: string, before: Credential, after: Credential)
    requires before == BareName(name) || before == Reference(Details(None, name))
    requires after != Missing && (after.BareName? ==> after == before)
    requires SlotOf(Entry(kind, after)) == Slot(kind, Resolve(table, kind, Details(None, name)))
    ensures LegacyRight(table, kind, name, before, after)
  {
    FindByOnly(table, name, kind);
    if forall i :: !IsOnly(table, i, name, kind) {
      assert SlotOf(Entry(kind, after)).details == Details(None, name);
    }
  }

  lemma HopelessExactlyWhenFails(table: seq<Row>, slot: Slot, kind: string, id: string)
    ensures IsHopeless(table, slot, kind, id) <==>
            Fails(table, slot) && slot.kind == kind && slot.details.id == Some(id)
  {
    FindByOnly(table, slot.details.name, slot.kind);
  }

  lemma {:induction false} FirstFailureIs(table: seq<Row>, seen: seq<Slot>, kind: string, id: string, k: nat)
    requires k < |seen| && IsHopeless(table, seen[k], kind, id)
    requires forall l :: 0 <= l < k ==> !IsHopeless(table, seen[l], kind, id)
    ensures FirstFailure(table, seen, kind, id) == Some(seen[k].details.name)
  {
    HopelessExactlyWhenFails(table, seen[k], kind, id);
    FailureIsNoticed(table, seen, k);
    var first := FirstFailureOccurs(table, seen, kind, id);
    HopelessExactlyWhenFails(table, seen[first], kind, id);
    if k < first {
      assert seen[..first][k] == seen[k];
      FailureIsNoticed(table, seen[..first], k);
    }
  }

  lemma OutcomeMeans(table: seq<Row>, seen: seq<Slot>, kind: string, id: string, name: string, after: Credential)
    requires UniqueIds(table) && after.Reference?
    requires Slot(kind, after.details) == Outcome(table, seen, Slot(kind, Details(Some(id), name)))
    ensures ByIdRight(table, seen, kind, id, name, after)
  {
    forall row | row in table && row.id == id && row.kind == kind
      ensures after == Reference(Details(Some(id), row.name))
    {
      FindsTheRow(table, row);
    }
    FindByOnly(table, name, kind);
    forall k | 0 <= k < |seen| && IsHopeless(table, seen[k], kind, id)
               && (forall l :: 0 <= l < k ==> !IsHopeless(table, seen[l], kind, id))
      ensures FirstFailure(table, seen, kind, id) == Some(seen[k].details.name)
    {
      FirstFailureIs(table, seen, kind, id, k);
    }
    if FirstFailure(table, seen, kind, id).Some? {
      var k := FirstFailureOccurs(table, seen, kind, id);
      HopelessExactlyWhenFails(table, seen[k], kind, id);
    }
  }

  lemma SlotsOfOne(entry: Entry)
    requires entry.credential != Missing
    ensures SlotsOf([entry]) == [SlotOf(entry)]
  {
    assert [entry][..0] == [];
  }

  lemma EntryMeans(table: seq<Row>, seen: seq<Slot>, before: Entry, after: Entry)
    requires UniqueIds(table) && SameEntry(before, after)
    requires before.credential != Missing ==> SlotOf(after) == Outcome(table, seen, SlotOf(before))
    requires after.credential.BareName? ==> after.credential == before.credential
    ensures EntryRight(table, seen, before, after)
  {
    match before.credential
    case Missing =>
    case BareName(name) => ResolveMeans(table, before.kind, name, before.credential, after.credential);
    case Reference(Details(None, name)) =>
      ResolveMeans(table, before.kind, name, before.credential, after.credential);
    case Reference(Details(Some(id), name)) =>
      assert SlotOf(after).details.id.Some?;
      OutcomeMeans(table, seen, before.kind, id, name, after.credential);
  }

  // ---------- replaceInvalidCredentials ----------

  /** What the repair may not touch: which nodes there are and whether they are
      disabled, their credential types, and everything on skipped nodes. */
  ghost predicate SameShape(before: Node, after: Node) {
    && after.disabled == before.disabled
    && (Skipped(before) ==> after == before)
    && (!Skipped(before) ==>
          && after.credentials.Some?
          && SameEntries(before.credentials.value, after.credentials.value))
  }

  ghost predicate SameEntries(before: seq<Entry>, after: seq<Entry>) {
    && |after| == |before|
    && forall j :: 0 <= j < |before| ==> SameEntry(before[j], after[j])
  }

  ghost predicate SameEntry(before: Entry, after: Entry) {
    after.kind == before.kind && (after.credential == Missing <==> before.credential == Missing)
  }

  ghost predicate CachesAgree(table: seq<Row>, seen: seq<Slot>,
                              byName: map<(string, string), Details>, byId: map<(string, string), Details>)
  {
    && (forall key :: key in byName ==> byName[key] == Resolve(table, key.0, Details(None, key.1)))
    && (forall key :: key in byId ==>
                        match FindOneBy(table, key.1, key.0)
                        case Some(row) => byId[key] == DetailsOf(row)
                        case None => FirstFailure(table, seen, key.0, key.1) == Some(byId[key].name)
                                     && byId[key].id == Some(key.1))
    && (forall key :: key !in byId && FindOneBy(table, key.1, key.0).None? ==>
                        FirstFailure(table, seen, key.0, key.1).None?)
  }

  /** Old-style lookups asked so far: none twice, and all of them cached. */
  ghost predicate LegacyQueriesCached(queries: seq<Query>, byName: map<(string, string), Details>) {
    && (forall q :: q in queries && q.LegacyByName? ==> (q.kind, q.name) in byName)
    && NoRepeatedLegacyQuery(queries)
  }

  ghost predicate NoRepeatedLegacyQuery(queries: seq<Query>) {
    forall i, j :: 0 <= i < j < |queries| && queries[i].LegacyByName? ==> queries[i] != queries[j]
  }

  /** One reference, through the caches. */
  method RepairLegacy(table: seq<Row>, kind: string, credential: Credential, name: string,
                      byName: map<(string, string), Details>, queries: seq<Query>)
    returns (repaired: Credential, byName': map<(string, string), Details>, queries': seq<Query>)
    requires credential == BareName(name) || credential == Reference(Details(None, name))
    requires forall key :: key in byName ==> byName[key] == Resolve(table, key.0, Details(None, key.1))
    requires LegacyQueriesCached(queries, byName)
    ensures SlotsOf([Entry(kind, repaired)]) == [Slot(kind, Resolve(table, kind, Details(None, name)))]
    ensures repaired.BareName? ==> repaired == credential
    ensures forall key :: key in byName' ==> byName'[key] == Resolve(table, key.0, Details(None, key.1))
    ensures LegacyQueriesCached(queries', byName')
  {
    repaired, byName', queries' := credential, byName, queries;
    if (kind, name) !in byName {
      var credentials := FindBy(table, name, kind);
      queries' := queries + [LegacyByName(kind, name)];
      if |credentials| == 1 {
        byName' := byName[(kind, name) := DetailsOf(credentials[0])];
        repaired := Reference(byName'[(kind, name)]);
      } else {
        byName' := byName[(kind, name) := Details(None, name)];
      }
    } else {
      repaired := Reference(byName[(kind, name)]);
    }
    assert [Entry(kind, repaired)][..0] == [];
  }

  method RepairById(table: seq<Row>, kind: string, details: Details, ghost seen: seq<Slot>,
                    byName: map<(string, string), Details>, byId: map<(string, string), Details>, queries: seq<Query>)
    returns (repaired: Credential, byId': map<(string, string), Details>, queries': seq<Query>)
    requires UniqueIds(table) && details.id.Some?
    requires CachesAgree(table, seen, byName, byId)
    requires LegacyQueriesCached(queries, byName)
    ensures repaired.Reference? && Slot(kind, repaired.details) == Outcome(table, seen, Slot(kind, details))
    ensures CachesAgree(table, seen + [Slot(kind, details)], byName, byId')
    ensures LegacyQueriesCached(queries', byName)
  {
    var id := details.id.value;
    repaired, byId', queries' := Reference(details), byId, queries;
    SeenOneMore(table, seen, Slot(kind, details));
    if (kind, id) !in byId {
      queries' := queries' + [ById(kind, id)];
      var credentials := FindOneBy(table, id, kind);
      if credentials.Some? {
        byId' := byId[(kind, id) := DetailsOf(credentials.value)];
        repaired := Reference(byId'[(kind, id)]);
        return;
      }
      queries' := queries' + [ByName(kind, details.name)];
      var credsByName := FindBy(table, details.name, kind);
      if |credsByName| == 1 {
        FindsTheRow(table, credsByName[0]);
        byId' := byId[(kind, credsByName[0].id) := DetailsOf(credsByName[0])];
        repaired := Reference(byId'[(kind, credsByName[0].id)]);
        return;
      }
      byId' := byId[(kind, id) := details];
      return;
    }
    repaired := Reference(byId[(kind, id)]);
  }

  lemma SeenOneMore(table: seq<Row>, seen: seq<Slot>, slot: Slot)
    ensures forall kind, id :: FirstFailure(table, seen + [slot], kind, id)
                            == if FirstFailure(table, seen, kind, id).None? && slot.kind == kind
                                && slot.details.id == Some(id) && Fails(table, slot)
                               then Some(slot.details.name) else FirstFailure(table, seen, kind, id)
  {
    assert (seen + [slot])[..|seen|] == seen;
  }

  lemma OutcomesOneMore(table: seq<Row>, seen: seq<Slot>, slot: Slot)
    ensures Outcomes(table, seen + [slot]) == Outcomes(table, seen) + [Outcome(table, seen, slot)]
  {
    assert (seen + [slot])[..|seen|] == seen;
  }

  lemma SlotsOneMore(entries: seq<Entry>, entry: Entry)
    ensures SlotsOf(entries + [entry]) == SlotsOf(entries) + SlotsOf([entry])
  {
    assert (entries + [entry])[..|entries|] == entries;
    assert [entry][..0] == [];
  }

  /** One credential, through the caches. */
  method RepairCredential(table: seq<Row>, entry: Entry, ghost seen: seq<Slot>,
                          byName: map<(string, string), Details>, byId: map<(string, string), Details>,
                          queries: seq<Query>)
    returns (repaired: Credential, byName': map<(string, string), Details>,
        byId': map<(string, string), Details>, queries': seq<Query>)
    requires UniqueIds(table) && entry.credential != Missing
    requires CachesAgree(table, seen, byName, byId) && LegacyQueriesCached(queries, byName)
    ensures repaired != Missing && SlotsOf([Entry(entry.kind, repaired)]) == [Outcome(table, seen, SlotOf(entry))]
    ensures repaired.BareName? ==> repaired == entry.credential
    ensures CachesAgree(table, seen + [SlotOf(entry)], byName', byId') && LegacyQueriesCached(queries', byName')
  {
    byName', byId', queries' := byName, byId, queries;
    SeenOneMore(table, seen, SlotOf(entry));
    match entry.credential {
      case BareName(name) =>
        repaired, byName', queries' := RepairLegacy(table, entry.kind, entry.credential, name, byName, queries);
      case Reference(details) =>
        if details.id.None? {
          repaired, byName', queries' :=
              RepairLegacy(table, entry.kind, entry.credential, details.name, byName, queries);
        } else {
          repaired, byId', queries' := RepairById(table, entry.kind, details, seen, byName, byId, queries);
        }
    }
    assert [Entry(entry.kind, repaired)][..0] == [];
  }

  /** One entry, through the caches. */
  method RepairEntry(table: seq<Row>, entry: Entry, ghost seen: seq<Slot>,
                     byName: map<(string, string), Details>, byId: map<(string, string), Details>, queries: seq<Query>)
    returns (repaired: Entry, byName': map<(string, string), Details>,
        byId': map<(string, string), Details>, queries': seq<Query>)
    requires UniqueIds(table)
    requires CachesAgree(table, seen, byName, byId) && LegacyQueriesCached(queries, byName)
    ensures SameEntry(entry, repaired) && EntryRight(table, seen, entry, repaired)
    ensures TurnInto(table, seen, SlotsOf([entry]), SlotsOf([repaired]))
    ensures CachesAgree(table, seen + SlotsOf([entry]), byName', byId') && LegacyQueriesCached(queries', byName')
  {
    assert [entry][..0] == [];
    if entry.credential == Missing {
      assert seen + SlotsOf([entry]) == seen;
      return entry, byName, byId, queries;
    }
    var credential;
    credential, byName', byId', queries' := RepairCredential(table, entry, seen, byName, byId, queries);
    repaired := Entry(entry.kind, credential);
    OutcomesOneMore(table, seen, SlotOf(entry));
    SlotsOfOne(repaired);
    EntryMeans(table, seen, entry, repaired);
  }

  /** After the references `seen`, the references `a` turn into `a'`. */
  ghost predicate TurnInto(table: seq<Row>, seen: seq<Slot>, a: seq<Slot>, a': seq<Slot>) {
    Outcomes(table, seen) + a' == Outcomes(table, seen + a)
  }

  lemma TurnIntoChain(table: seq<Row>, seen: seq<Slot>, a: seq<Slot>, a': seq<Slot>, b: seq<Slot>, b': seq<Slot>)
    requires TurnInto(table, seen, a, a') && TurnInto(table, seen + a, b, b')
    ensures TurnInto(table, seen, a + b, a' + b')
  {
    assert seen + (a + b) == seen + a + b;
    assert Outcomes(table, seen) + (a' + b') == Outcomes(table, seen) + a' + b';
  }

  lemma SlotsUpTo(entries: seq<Entry>, j: nat)
    requires j < |entries|
    ensures SlotsOf(entries[..j + 1]) == SlotsOf(entries[..j]) + SlotsOf([entries[j]])
  {
    SlotsOneMore(entries[..j], entries[j]);
    assert entries[..j + 1] == entries[..j] + [entries[j]];
  }

  lemma EntriesOneMore(table: seq<Row>, entries: seq<Entry>, repaired: seq<Entry>, j: nat, seen: seq<Slot>)
    requires j < |entries| == |repaired|
    requires TurnInto(table, seen, SlotsOf(entries[..j]), SlotsOf(repaired[..j]))
    requires TurnInto(table, seen + SlotsOf(entries[..j]), SlotsOf([entries[j]]), SlotsOf([repaired[j]]))
    ensures TurnInto(table, seen, SlotsOf(entries[..j + 1]), SlotsOf(repaired[..j + 1]))
    ensures seen + SlotsOf(entries[..j + 1]) == seen + SlotsOf(entries[..j]) + SlotsOf([entries[j]])
  {
    SlotsUpTo(entries, j);
    SlotsUpTo(repaired, j);
    TurnIntoChain(table, seen, SlotsOf(entries[..j]), SlotsOf(repaired[..j]),
        SlotsOf([entries[j]]), SlotsOf([repaired[j]]));
  }

  /** The first `n` entries are repaired as those met before ask for. */
  ghost predicate EntriesRight(table: seq<Row>, seen: seq<Slot>, before: seq<Entry>, after: seq<Entry>, n: nat)
    requires n <= |before| == |after|
  {
    forall j :: 0 <= j < n ==> EntryRight(table, seen + SlotsOf(before[..j]), before[j], after[j])
  }

  lemma EntriesRightOneMore(table: seq<Row>, seen: seq<Slot>, before: seq<Entry>, after: seq<Entry>,
                            entry: Entry, j: nat)
    requires j < |before| && SameEntries(before, after) && EntriesRight(table, seen, before, after, j)
    requires SameEntry(before[j], entry) && EntryRight(table, seen + SlotsOf(before[..j]), before[j], entry)
    ensures SameEntries(before, after[j := entry]) && EntriesRight(table, seen, before, after[j := entry], j + 1)
  {
  }

  /** One node's entries, sharing the caches with the nodes before it. */
  method RepairEntries(table: seq<Row>, entries: seq<Entry>, ghost seen: seq<Slot>,
                       byName: map<(string, string), Details>, byId: map<(string, string), Details>,
                       queries: seq<Query>)
    returns (repaired: seq<Entry>, byName': map<(string, string), Details>,
        byId': map<(string, string), Details>, queries': seq<Query>)
    requires UniqueIds(table)
    requires CachesAgree(table, seen, byName, byId) && LegacyQueriesCached(queries, byName)
    ensures SameEntries(entries, repaired) && EntriesRight(table, seen, entries, repaired, |entries|)
    ensures TurnInto(table, seen, SlotsOf(entries), SlotsOf(repaired))
    ensures CachesAgree(table, seen + SlotsOf(entries), byName', byId') && LegacyQueriesCached(queries', byName')
  {
    repaired, byName', byId', queries' := entries, byName, byId, queries;
    assert seen + SlotsOf(entries[..0]) == seen;
    for j := 0 to |entries|
      invariant SameEntries(entries, repaired) && EntriesRight(table, seen, entries, repaired, j)
      invariant forall k :: j <= k < |entries| ==> repaired[k] == entries[k]
      invariant TurnInto(table, seen, SlotsOf(entries[..j]), SlotsOf(repaired[..j]))
      invariant CachesAgree(table, seen + SlotsOf(entries[..j]), byName', byId')
      invariant LegacyQueriesCached(queries', byName')
    {
      var entry;
      entry, byName', byId', queries' :=
          RepairEntry(table, entries[j], seen + SlotsOf(entries[..j]), byName', byId', queries');
      ghost var previous := repaired;
      repaired := repaired[j := entry];
      assert repaired[..j] == previous[..j];
      EntriesRightOneMore(table, seen, entries, previous, entry, j);
      EntriesOneMore(table, entries, repaired, j, seen);
    }
    assert entries[..|entries|] == entries && repaired[..|entries|] == repaired;
  }

  lemma ReferencesOneMore(nodes: seq<Node>, i: nat)
    requires i < |nodes|
    ensures References(nodes[..i + 1]) == References(nodes[..i]) + SlotsOfNode(nodes[i])
  {
    assert nodes[..i + 1][..i] == nodes[..i];
  }

  /** A node that is disabled or has no credentials is left alone. */
  ghost predicate NodeRight(table: seq<Row>, seen: seq<Slot>, before: Node, after: Node) {
    && after.disabled == before.disabled
    && (before.disabled || before.credentials.None? ==> after == before)
    && (!before.disabled && before.credentials.Some? ==>
          && after.credentials.Some? && |after.credentials.value| == |before.credentials.value|
          && EntriesRight(table, seen, before.credentials.value, after.credentials.value, |before.credentials.value|))
  }

  /** The first `i` nodes are repaired and accounted for, the rest untouched. */
  ghost predicate NodesRepaired(table: seq<Row>, before: seq<Node>, after: seq<Node>, i: nat) {
    && i <= |before| == |after|
    && (forall k :: 0 <= k < i ==>
          SameShape(before[k], after[k]) && NodeRight(table, References(before[..k]), before[k], after[k]))
    && (forall k :: i <= k < |before| ==> after[k] == before[k])
    && References(after[..i]) == Outcomes(table, References(before[..i]))
  }

  lemma NodesRepairedOneMore(table: seq<Row>, before: seq<Node>, after: seq<Node>, i: nat, node: Node)
    requires NodesRepaired(table, before, after, i) && i < |before|
    requires SameShape(before[i], node) && NodeRight(table, References(before[..i]), before[i], node)
    requires TurnInto(table, References(before[..i]), SlotsOfNode(before[i]), SlotsOfNode(node))
    ensures NodesRepaired(table, before, after[i := node], i + 1)
  {
    var next := after[i := node];
    ReferencesOneMore(before, i);
    ReferencesOneMore(next, i);
    assert next[..i] == after[..i];
  }

  /** One node, sharing the caches with the nodes before it. */
  method RepairNode(table: seq<Row>, node: Node, ghost seen: seq<Slot>,
                    byName: map<(string, string), Details>, byId: map<(string, string), Details>, queries: seq<Query>)
    returns (repaired: Node, byName': map<(string, string), Details>, byId': map<(string, string), Details>,
             queries': seq<Query>)
    requires UniqueIds(table)
    requires CachesAgree(table, seen, byName, byId) && LegacyQueriesCached(queries, byName)
    ensures SameShape(node, repaired) && NodeRight(table, seen, node, repaired)
    ensures TurnInto(table, seen, SlotsOfNode(node), SlotsOfNode(repaired))
    ensures CachesAgree(table, seen + SlotsOfNode(node), byName', byId') && LegacyQueriesCached(queries', byName')
  {
    if node.disabled || node.credentials.None? {
      assert seen + [] == seen;
      return node, byName, byId, queries;
    }
    var entries;
    entries, byName', byId', queries' := RepairEntries(table, node.credentials.value, seen, byName, byId, queries);
    repaired := node.(credentials := Some(entries));
  }

  // ---------- By the places references are in ----------

  /** Entry `j2` of node `i2` is met before entry `j` of node `i`. */
  ghost predicate IsMetBefore(nodes: seq<Node>, i2: int, j2: int, i: int, j: int) {
    && 0 <= i2 < |nodes| && (i2 < i || (i2 == i && j2 < j))
    && !nodes[i2].disabled && nodes[i2].credentials.Some? && 0 <= j2 < |nodes[i2].credentials.value|
  }

  /** And it is a reference by that id and of that type that names neither a row's id nor
      the only row of a name. */
  ghost predicate HopelessAt(table: seq<Row>, nodes: seq<Node>, i2: int, j2: int,
                             kind: string, id: string, name: string)
    requires 0 <= i2 < |nodes| && nodes[i2].credentials.Some? && 0 <= j2 < |nodes[i2].credentials.value|
  {
    && nodes[i2].credentials.value[j2] == Entry(kind, Reference(Details(Some(id), name)))
    && (forall row :: row in table ==> row.id != id || row.kind != kind)
    && (forall r :: !IsOnly(table, r, name, kind))
  }

  /** What entry `j` of node `i` of a workflow becomes. */
  ghost predicate IsRepaired(table: seq<Row>, nodes: seq<Node>, i: nat, j: nat, after: Entry)
    requires i < |nodes| && nodes[i].credentials.Some? && j < |nodes[i].credentials.value|
  {
    var before := nodes[i].credentials.value[j];
    && after.kind == before.kind
    && match before.credential
       case Missing => after.credential == Missing
       case BareName(name) => LegacyRight(table, before.kind, name, before.credential, after.credential)
       case Reference(Details(None, name)) =>
         LegacyRight(table, before.kind, name, before.credential, after.credential)
       case Reference(Details(Some(id), name)) => IsRepairedById(table, nodes, i, j, id, name, after)
  }

  ghost predicate IsRepairedById(table: seq<Row>, nodes: seq<Node>, i: nat, j: nat, id: string, name: string,
                                 after: Entry)
  {
    if exists row :: row in table && row.id == id && row.kind == after.kind then
      forall row :: row in table && row.id == id && row.kind == after.kind ==>
        after.credential == Reference(Details(Some(id), row.name))
    else if exists i2, j2, failed ::
        IsMetBefore(nodes, i2, j2, i, j) && HopelessAt(table, nodes, i2, j2, after.kind, id, failed)
    then exists i2, j2, failed ::
        && IsMetBefore(nodes, i2, j2, i, j) && HopelessAt(table, nodes, i2, j2, after.kind, id, failed)
        && after.credential == Reference(Details(Some(id), failed))
    else
      && (forall r :: IsOnly(table, r, name, after.kind) ==>
            after.credential == Reference(Details(Some(table[r].id), table[r].name)))
      && ((forall r :: !IsOnly(table, r, name, after.kind)) ==> after.credential == Reference(Details(Some(id), name)))
  }

  lemma {:induction false} SlotsAreEntries(entries: seq<Entry>, slot: Slot)
    ensures slot in SlotsOf(entries) <==>
            exists j :: 0 <= j < |entries| && entries[j].credential != Missing && SlotOf(entries[j]) == slot
  {
    if entries != [] {
      var init := entries[..|entries| - 1];
      SlotsAreEntries(init, slot);
      assert forall j :: 0 <= j < |init| ==> init[j] == entries[j];
    }
  }

  /** The slot is that of entry `j` of node `i`. */
  ghost predicate HasSlot(nodes: seq<Node>, i: int, j: int, slot: Slot)
    requires 0 <= i < |nodes| && nodes[i].credentials.Some? && 0 <= j < |nodes[i].credentials.value|
  {
    var entry := nodes[i].credentials.value[j];
    entry.credential != Missing && SlotOf(entry) == slot
  }

  lemma SlotsOfLast(nodes: seq<Node>, slot: Slot)
    requires nodes != []
    ensures var n := |nodes| - 1;
            slot in SlotsOfNode(nodes[n]) <==>
            exists j :: IsMetBefore(nodes, n, j, |nodes|, 0) && HasSlot(nodes, n, j, slot)
  {
    var n := |nodes| - 1;
    var last := nodes[n];
    if !last.disabled && last.credentials.Some? {
      SlotsAreEntries(last.credentials.value, slot);
      assert forall j :: 0 <= j < |last.credentials.value| ==> IsMetBefore(nodes, n, j, |nodes|, 0);
      if slot in SlotsOfNode(last) {
        var j :| 0 <= j < |last.credentials.value| && last.credentials.value[j].credential != Missing
                 && SlotOf(last.credentials.value[j]) == slot;
        assert HasSlot(nodes, n, j, slot);
      }
    }
  }

  lemma MetInPrefix(nodes: seq<Node>, n: nat, i: int, j: int)
    requires n <= |nodes|
    ensures IsMetBefore(nodes[..n], i, j, n, 0) <==> IsMetBefore(nodes, i, j, n, 0)
  {
    assert 0 <= i < n ==> nodes[..n][i] == nodes[i];
  }

  /** Somewhere in the first `n` nodes. */
  ghost predicate HasSlotBefore(nodes: seq<Node>, n: nat, slot: Slot)
    requires n <= |nodes|
  {
    exists i, j :: IsMetBefore(nodes, i, j, n, 0) && HasSlot(nodes, i, j, slot)
  }

  ghost predicate HasSlotIn(nodes: seq<Node>, last: nat, n: nat, slot: Slot)
    requires last < n <= |nodes|
  {
    exists j :: IsMetBefore(nodes, last, j, n, 0) && HasSlot(nodes, last, j, slot)
  }

  lemma HasSlotOneMore(nodes: seq<Node>, last: nat, n: nat, slot: Slot)
    requires last < n <= |nodes| && n == last + 1
    ensures HasSlotBefore(nodes, n, slot) <==> HasSlotBefore(nodes, last, slot) || HasSlotIn(nodes, last, n, slot)
  {
    if HasSlotBefore(nodes, last, slot) {
      var i, j :| IsMetBefore(nodes, i, j, last, 0) && HasSlot(nodes, i, j, slot);
      assert IsMetBefore(nodes, i, j, n, 0);
    }
    if HasSlotBefore(nodes, n, slot) {
      var i, j :| IsMetBefore(nodes, i, j, n, 0) && HasSlot(nodes, i, j, slot);
      assert i < last ==> IsMetBefore(nodes, i, j, last, 0);
    }
  }

  lemma {:induction false} ReferencesAreEntries(nodes: seq<Node>, n: nat, slot: Slot)
    requires n <= |nodes|
    ensures slot in References(nodes[..n]) <==> HasSlotBefore(nodes, n, slot)
  {
    if n > 0 {
      ReferencesOneMore(nodes, n - 1);
      ReferencesAreEntries(nodes, n - 1, slot);
      LastInPrefix(nodes, n - 1, n, slot);
      HasSlotOneMore(nodes, n - 1, n, slot);
    }
  }

  lemma LastInPrefix(nodes: seq<Node>, last: nat, n: nat, slot: Slot)
    requires last < n <= |nodes| && n == last + 1
    ensures slot in SlotsOfNode(nodes[last]) <==> HasSlotIn(nodes, last, n, slot)
  {
    SlotsOfLast(nodes[..n], slot);
    assert nodes[..n][last] == nodes[last];
    forall j
      ensures IsMetBefore(nodes[..n], last, j, n, 0) <==> IsMetBefore(nodes, last, j, n, 0)
    {
      MetInPrefix(nodes, n, last, j);
    }
  }

  /** What was seen before entry `j` of node `i` is what stands before it. */
  lemma SeenIsMetBefore(nodes: seq<Node>, i: nat, j: nat, slot: Slot)
    requires i < |nodes| && !nodes[i].disabled && nodes[i].credentials.Some? && j <= |nodes[i].credentials.value|
    ensures slot in References(nodes[..i]) + SlotsOf(nodes[i].credentials.value[..j]) <==>
            exists i2, j2 :: IsMetBefore(nodes, i2, j2, i, j) && HasSlot(nodes, i2, j2, slot)
  {
    var own := nodes[i].credentials.value;
    ReferencesAreEntries(nodes, i, slot);
    SlotsAreEntries(own[..j], slot);
    if slot in References(nodes[..i]) {
      var i2, j2 :| IsMetBefore(nodes, i2, j2, i, 0) && HasSlot(nodes, i2, j2, slot);
      assert IsMetBefore(nodes, i2, j2, i, j);
    }
    if slot in SlotsOf(own[..j]) {
      var j2 :| 0 <= j2 < j && own[..j][j2].credential != Missing && SlotOf(own[..j][j2]) == slot;
      assert IsMetBefore(nodes, i, j2, i, j) && HasSlot(nodes, i, j2, slot);
    }
    if i2, j2 :| IsMetBefore(nodes, i2, j2, i, j) && HasSlot(nodes, i2, j2, slot) {
      if i2 < i {
        assert IsMetBefore(nodes, i2, j2, i, 0);
      } else {
        assert own[..j][j2] == own[j2];
      }
    }
  }

  lemma RightIsRepaired(table: seq<Row>, nodes: seq<Node>, i: nat, j: nat, after: Entry)
    requires i < |nodes| && !nodes[i].disabled && nodes[i].credentials.Some? && j < |nodes[i].credentials.value|
    requires EntryRight(table, References(nodes[..i]) + SlotsOf(nodes[i].credentials.value[..j]),
                 nodes[i].credentials.value[j], after)
    ensures IsRepaired(table, nodes, i, j, after)
  {
    var before := nodes[i].credentials.value[j];
    match before.credential
    case Reference(Details(Some(id), name)) =>
      ByIdRightIsRepaired(table, nodes, i, j, id, name, after);
    case _ =>
  }

  lemma ByIdRightIsRepaired(table: seq<Row>, nodes: seq<Node>, i: nat, j: nat, id: string, name: string, after: Entry)
    requires i < |nodes| && !nodes[i].disabled && nodes[i].credentials.Some? && j < |nodes[i].credentials.value|
    requires ByIdRight(table, References(nodes[..i]) + SlotsOf(nodes[i].credentials.value[..j]),
                 after.kind, id, name, after.credential)
    ensures IsRepairedById(table, nodes, i, j, id, name, after)
  {
    var seen := References(nodes[..i]) + SlotsOf(nodes[i].credentials.value[..j]);
    if k :| 0 <= k < |seen| && IsHopeless(table, seen[k], after.kind, id) {
      var first := FirstHopeless(table, seen, after.kind, id, k);
      assert seen[first] in seen;
      SeenIsMetBefore(nodes, i, j, seen[first]);
      var i2, j2 :| IsMetBefore(nodes, i2, j2, i, j) && HasSlot(nodes, i2, j2, seen[first]);
      assert HopelessAt(table, nodes, i2, j2, after.kind, id, seen[first].details.name);
    } else {
      forall i2, j2, failed | IsMetBefore(nodes, i2, j2, i, j)
        ensures !HopelessAt(table, nodes, i2, j2, after.kind, id, failed)
      {
        var slot := Slot(after.kind, Details(Some(id), failed));
        if HopelessAt(table, nodes, i2, j2, after.kind, id, failed) {
          assert HasSlot(nodes, i2, j2, slot);
          SeenIsMetBefore(nodes, i, j, slot);
          var k :| 0 <= k < |seen| && seen[k] == slot;
          assert IsHopeless(table, seen[k], after.kind, id);
        }
      }
    }
  }

  lemma {:induction false} FirstHopeless(table: seq<Row>, seen: seq<Slot>, kind: string, id: string, k: nat)
      returns (first: nat)
    requires k < |seen| && IsHopeless(table, seen[k], kind, id)
    ensures first < |seen| && IsHopeless(table, seen[first], kind, id)
    ensures forall l :: 0 <= l < first ==> !IsHopeless(table, seen[l], kind, id)
  {
    first := k;
    if l :| 0 <= l < k && IsHopeless(table, seen[l], kind, id) {
      first := FirstHopeless(table, seen, kind, id, l);
    }
  }

  /** Nodes that are disabled or have no credentials are left alone; of the others every entry
      is repaired. */
  ghost predicate AreRepaired(table: seq<Row>, before: seq<Node>, after: seq<Node>) {
    && |after| == |before|
    && (forall i :: 0 <= i < |before| && (before[i].disabled || before[i].credentials.None?) ==> after[i] == before[i])
    && (forall i, j :: 0 <= i < |before| && !before[i].disabled && before[i].credentials.Some?
                       && 0 <= j < |before[i].credentials.value| ==>
          && after[i].credentials.Some? && j < |after[i].credentials.value|
          && IsRepaired(table, before, i, j, after[i].credentials.value[j]))
  }

  lemma NodesAreRepaired(table: seq<Row>, before: seq<Node>, after: seq<Node>)
    requires NodesRepaired(table, before, after, |before|)
    ensures AreRepaired(table, before, after)
  {
    forall i, j | 0 <= i < |before| && !before[i].disabled && before[i].credentials.Some?
                  && 0 <= j < |before[i].credentials.value|
      ensures after[i].credentials.Some? && j < |after[i].credentials.value|
      ensures IsRepaired(table, before, i, j, after[i].credentials.value[j])
    {
      assert NodeRight(table, References(before[..i]), before[i], after[i]);
      RightIsRepaired(table, before, i, j, after[i].credentials.value[j]);
    }
  }

  /** Rewrites the nodes in place. Every reference gets the outcome determined by the
      references met before it; old-style ones are looked up at most once each. */
  method ReplaceInvalidCredentials(table: seq<Row>, nodes: array<Node>) returns (queries: seq<Query>)
    requires UniqueIds(table)
    modifies nodes
    ensures forall i :: 0 <= i < nodes.Length ==> SameShape(old(nodes[i]), nodes[i])
    ensures References(nodes[..]) == Outcomes(table, References(old(nodes[..])))
    ensures AreRepaired(table, old(nodes[..]), nodes[..])
    ensures NoRepeatedLegacyQuery(queries)
  {
    var byName: map<(string, string), Details>, byId: map<(string, string), Details> := map[], map[];
    queries := [];
    ghost var before := nodes[..];
    for i := 0 to nodes.Length
      invariant NodesRepaired(table, before, nodes[..], i)
      invariant CachesAgree(table, References(before[..i]), byName, byId)
      invariant LegacyQueriesCached(queries, byName)
    {
      ghost var current := nodes[..];
      var node;
      node, byName, byId, queries := RepairNode(table, nodes[i], References(before[..i]), byName, byId, queries);
      ReferencesOneMore(before, i);
      NodesRepairedOneMore(table, before, current, i, node);
      nodes[i] := node;
      assert nodes[..] == current[i := node];
    }
    assert nodes[..][..nodes.Length] == nodes[..] && before[..nodes.Length] == before;
    NodesAreRepaired(table, before, nodes[..]);
  }
}
