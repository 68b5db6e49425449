/**
 * The persisted gadget table: the `Gadget` record, its `GadgetStatus` enum and the
 * behaviour of the store the service relies on (filtered reads, partial updates that
 * leave absent fields alone, rejection of strings outside the enum, unique codenames).
 */
module Gadgets {
  import opened Wrappers

  type Id = string

  /** A point in time, in milliseconds; supplied by the caller where the source reads the clock. */
  type Time = int

  datatype GadgetStatus = Available | Deployed | Destroyed | Decommissioned

  /** The enum value's spelling in requests, responses and the store. */
  function StatusName(s: GadgetStatus): string {
    match s
    case Available => "Available"
    case Deployed => "Deployed"
    case Destroyed => "Destroyed"
    case Decommissioned => "Decommissioned"
  }

  /** The store's reading of a status string: exactly the four spellings are accepted. */
  function ParseStatus(s: string): (r: Option<GadgetStatus>)
    ensures r.Some? ==> StatusName(r.value) == s
    ensures r.None? ==> forall st: GadgetStatus :: StatusName(st) != s
  {
    if s == "Available" then Some(Available)
    else if s == "Deployed" then Some(Deployed)
    else if s == "Destroyed" then Some(Destroyed)
    else if s == "Decommissioned" then Some(Decommissioned)
    else None
  }

  datatype Gadget = Gadget(
    id: Id,
    name: string,
    codename: string,
    status: GadgetStatus,
    decommissionedAt: Option<Time>)

  /** Some stored gadget carries this codename (a lookup on the unique `codename` column). */
  predicate CodenameInUse(rows: map<Id, Gadget>, codename: string) {
    exists id | id in rows :: rows[id].codename == codename
  }

  /** Every row is stored under its own id. */
  ghost predicate WellKeyed(rows: map<Id, Gadget>) {
    forall id | id in rows :: rows[id].id == id
  }

  /** The unique constraint on the `codename` column. */
  ghost predicate UniqueCodenames(rows: map<Id, Gadget>) {
    forall i, j | i in rows && j in rows && i != j :: rows[i].codename != rows[j].codename
  }

  /** The gadget table, shared by every request. */
  class GadgetTable {
    var rows: map<Id, Gadget>

    ghost predicate Valid()
      reads this
    {
      WellKeyed(rows) && UniqueCodenames(rows)
    }

    constructor ()
      ensures Valid() && rows == map[]
    {
      rows := map[];
    }
  }

  /** `findMany({ where: { status } })`; an absent status places no condition. */
  function FindMany(rows: map<Id, Gadget>, status: Option<GadgetStatus>): (r: map<Id, Gadget>)
    ensures forall id :: id in r <==> id in rows && (status.None? || rows[id].status == status.value)
    ensures forall id | id in r :: r[id] == rows[id]
    ensures status.None? ==> r == rows
  {
    map id | id in rows && (status.None? || rows[id].status == status.value) :: rows[id]
  }

  /** What a store call gives back: a value, or an error the store throws. */
  datatype Outcome<T> = Returned(value: T) | Threw

  /** The `data` of a partial update; an absent field is one the update leaves alone. */
  datatype GadgetPatch = GadgetPatch(name: Option<string>, status: Option<string>)

  /** The store accepts a patch unless its status is a string outside the enum. */
  predicate AcceptedPatch(p: GadgetPatch) {
    p.status.None? || ParseStatus(p.status.value).Some?
  }

  /** The row after an accepted partial update. */
  function Patched(g: Gadget, p: GadgetPatch): Gadget
    requires AcceptedPatch(p)
  {
    g.(name := if p.name.Some? then p.name.value else g.name,
       status := if p.status.Some? then ParseStatus(p.status.value).value else g.status)
  }

  /** Spelling a status and reading it back is the identity. */
  lemma StatusRoundTrip(st: GadgetStatus, s: string)
    ensures ParseStatus(StatusName(st)) == Some(st)
    ensures ParseStatus(s).Some? ==> StatusName(ParseStatus(s).value) == s
  {
  }

  /**
   * A partial update overwrites exactly the supplied fields: name and status take the
   * supplied values, everything else (id, codename, decommission time) is kept.
   */
  lemma PatchedOverwritesOnlySupplied(g: Gadget, p: GadgetPatch)
    requires AcceptedPatch(p)
    ensures Patched(g, p).id == g.id && Patched(g, p).codename == g.codename
    ensures Patched(g, p).decommissionedAt == g.decommissionedAt
    ensures Patched(g, p).name == (if p.name.Some? then p.name.value else g.name)
    ensures p.status.Some? ==> StatusName(Patched(g, p).status) == p.status.value
    ensures p.status.None? ==> Patched(g, p).status == g.status
    ensures p == GadgetPatch(None, None) ==> Patched(g, p) == g
  {
  }

  /** Filtering by status partitions the table: each row is listed under its own status only. */
  lemma FindManyPartition(rows: map<Id, Gadget>, id: Id)
    requires id in rows
    ensures id in FindMany(rows, Some(rows[id].status))
    ensures forall other: GadgetStatus | other != rows[id].status :: id !in FindMany(rows, Some(other))
  {
  }

  /** Inserting a fresh row whose codename is unused keeps the table valid. */
  lemma InsertKeepsValid(rows: map<Id, Gadget>, g: Gadget)
    requires WellKeyed(rows) && UniqueCodenames(rows)
    requires g.id !in rows && !CodenameInUse(rows, g.codename)
    ensures WellKeyed(rows[g.id := g]) && UniqueCodenames(rows[g.id := g])
    ensures CodenameInUse(rows[g.id := g], g.codename)
  {
    var rows' := rows[g.id := g];
    forall i, j | i in rows' && j in rows' && i != j
      ensures rows'[i].codename != rows'[j].codename
    {
      if i == g.id {
        assert rows'[j] == rows[j];
      } else if j == g.id {
        assert rows'[i] == rows[i];
      }
    }
    assert rows'[g.id].codename == g.codename;
  }

  /** Replacing a row by one with the same id and codename keeps the table valid. */
  lemma ReplaceKeepsValid(rows: map<Id, Gadget>, g: Gadget)
    requires WellKeyed(rows) && UniqueCodenames(rows)
    requires g.id in rows && rows[g.id].codename == g.codename
    ensures WellKeyed(rows[g.id := g]) && UniqueCodenames(rows[g.id := g])
  {
  }
}
