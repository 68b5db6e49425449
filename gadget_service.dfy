/**
 * The gadget service: reads and find-then-update operations over the shared gadget table.
 * Each mutator looks the id up first and answers `None` (the source's `null`) for a
 * missing id without writing; otherwise it rewrites that one row and no other.
 * The random success probability the reads attach is not modelled.
 */
module GadgetService {
  import opened Wrappers
  import opened Text
  import opened Gadgets
  import CodenameGenerator

  /**
   * `getAllGadgets(status?)`: a falsy status lists every gadget; any other string is used
   * as the filter, and the store throws when it is not one of the four statuses.
   */
  function GetAllGadgets(db: GadgetTable, status: Option<string>): (r: Outcome<map<Id, Gadget>>)
    reads db
    ensures r.Threw? <==> Truthy(status) && ParseStatus(status.value).None?
    ensures r.Returned? && !Truthy(status) ==> r.value == db.rows
    ensures r.Returned? && Truthy(status) ==>
      forall id :: id in r.value <==> id in db.rows && StatusName(db.rows[id].status) == status.value
    ensures r.Returned? ==> forall id | id in r.value :: r.value[id] == db.rows[id]
  {
    if !Truthy(status) then Returned(FindMany(db.rows, None))
    else match ParseStatus(status.value)
      case None => Threw
      case Some(st) => Returned(FindMany(db.rows, Some(st)))
  }

  /** `getGadgetById(id)`: the stored gadget, or `None` exactly when the id is unknown. */
  function GetGadgetById(db: GadgetTable, id: Id): (r: Option<Gadget>)
    reads db
    ensures r.None? <==> id !in db.rows
    ensures r.Some? ==> id in db.rows && r.value == db.rows[id]
  {
    if id in db.rows then Some(db.rows[id]) else None
  }

  /**
   * `createGadget(name)`: generate a fresh codename, then insert an Available gadget
   * under the id the store assigns. While the codename search has not finished (the draws
   * ran out) nothing is written.
   */
  method CreateGadget(db: GadgetTable, name: string, newId: Id, draws: seq<CodenameGenerator.Draw>)
    returns (created: Option<Gadget>)
    requires db.Valid() && newId !in db.rows
    modifies db
    ensures db.Valid()
    ensures created.None? <==>
      forall i | 0 <= i < |draws| :: CodenameInUse(old(db.rows), CodenameGenerator.Candidate(draws[i]))
    ensures created.None? ==> db.rows == old(db.rows)
    ensures created.Some? ==>
      && created.value.id == newId && created.value.name == name
      && created.value.status == Available && created.value.decommissionedAt == None
      && CodenameGenerator.IsGeneratorCodename(created.value.codename)
      && !CodenameInUse(old(db.rows), created.value.codename)
      && db.rows == old(db.rows)[newId := created.value]
  {
    var codename := CodenameGenerator.GenerateCodename(db, draws);
    if codename.None? {
      return None;
    }
    var g := Gadget(newId, name, codename.value, Available, None);
    InsertKeepsValid(db.rows, g);
    db.rows := db.rows[newId := g];
    created := Some(g);
  }

  /**
   * `updateGadget(id, data)`: `None` for an unknown id; the store throws on a status
   * outside the enum; otherwise the supplied fields of that one row are overwritten.
   */
  method UpdateGadget(db: GadgetTable, id: Id, data: GadgetPatch) returns (r: Outcome<Option<Gadget>>)
    requires db.Valid()
    modifies db
    ensures db.Valid()
    ensures id !in old(db.rows) ==> r == Returned(None) && db.rows == old(db.rows)
    ensures id in old(db.rows) && !AcceptedPatch(data) ==> r == Threw && db.rows == old(db.rows)
    ensures id in old(db.rows) && AcceptedPatch(data) ==>
      var g := Patched(old(db.rows)[id], data);
      r == Returned(Some(g)) && db.rows == old(db.rows)[id := g]
  {
    var gadget := GetGadgetById(db, id);
    if gadget.None? {
      return Returned(None);
    }
    if !AcceptedPatch(data) {
      return Threw;
    }
    var g := Patched(gadget.value, data);
    PatchedOverwritesOnlySupplied(gadget.value, data);
    ReplaceKeepsValid(db.rows, g);
    db.rows := db.rows[id := g];
    r := Returned(Some(g));
  }

  /** `decommissionGadget(id)`: status Decommissioned, stamped with the current time. */
  method DecommissionGadget(db: GadgetTable, id: Id, now: Time) returns (r: Option<Gadget>)
    requires db.Valid()
    modifies db
    ensures db.Valid()
    ensures id !in old(db.rows) ==> r == None && db.rows == old(db.rows)
    ensures id in old(db.rows) ==>
      var g := old(db.rows)[id].(status := Decommissioned, decommissionedAt := Some(now));
      r == Some(g) && db.rows == old(db.rows)[id := g]
  {
    var gadget := GetGadgetById(db, id);
    if gadget.None? {
      return None;
    }
    var g := gadget.value.(status := Decommissioned, decommissionedAt := Some(now));
    ReplaceKeepsValid(db.rows, g);
    db.rows := db.rows[id := g];
    r := Some(g);
  }

  /** `destroyGadget(id)`: status Destroyed; the decommission time is left as it was. */
  method DestroyGadget(db: GadgetTable, id: Id) returns (r: Option<Gadget>)
    requires db.Valid()
    modifies db
    ensures db.Valid()
    ensures id !in old(db.rows) ==> r == None && db.rows == old(db.rows)
    ensures id in old(db.rows) ==>
      var g := old(db.rows)[id].(status := Destroyed);
      r == Some(g) && db.rows == old(db.rows)[id := g]
  {
    var gadget := GetGadgetById(db, id);
    if gadget.None? {
      return None;
    }
    var g := gadget.value.(status := Destroyed);
    ReplaceKeepsValid(db.rows, g);
    db.rows := db.rows[id := g];
    r := Some(g);
  }

  /**
   * `getGadgetsByStatus(status)`: the status is passed to the filter as it is, so an absent
   * one places no condition and an empty or unknown one makes the store throw.
   */
  function GetGadgetsByStatus(db: GadgetTable, status: Option<string>): (r: Outcome<map<Id, Gadget>>)
    reads db
    ensures r.Threw? <==> status.Some? && ParseStatus(status.value).None?
    ensures status.None? ==> r == Returned(db.rows)
    ensures r.Returned? && status.Some? ==>
      forall id :: id in r.value <==> id in db.rows && StatusName(db.rows[id].status) == status.value
    ensures r.Returned? ==> forall id | id in r.value :: r.value[id] == db.rows[id]
  {
    if status.None? then Returned(FindMany(db.rows, None))
    else match ParseStatus(status.value)
      case None => Threw
      case Some(st) => Returned(FindMany(db.rows, Some(st)))
  }

  /**
   * The two listing operations agree on every status string, and differ only on an
   * empty one: listing treats it as "no filter", listing by status rejects it.
   */
  lemma ListingsAgree(db: GadgetTable, status: string)
    ensures status != "" ==> GetAllGadgets(db, Some(status)) == GetGadgetsByStatus(db, Some(status))
    ensures GetAllGadgets(db, Some("")) == Returned(db.rows)
    ensures GetGadgetsByStatus(db, Some("")).Threw?
  {
  }
}
