/**
 * The gadget handlers: each checks its request in the source's order, calls the service
 * and maps its result to a response. A value the service returns becomes 200 (201 for a
 * creation), its `None` becomes 404, and an error the store throws becomes 500.
 */
module GadgetController {
  import opened Wrappers
  import opened Text
  import opened Gadgets
  import opened Http
  import Service = GadgetService
  import CodenameGenerator

  const NotFound: Response := Response(404, Error("Gadget not found"))
  const NameRequired: Response := Response(400, Error("Gadget name is required"))
  const NothingToUpdate: Response := Response(400, Error("At least one field to update is required"))
  const DecommissionedMessage: string := "Gadget decommissioned successfully"
  const DestroyedMessage: string := "Gadget self-destruct sequence completed successfully"

  /** The 400 answer to a wrong confirmation code; it echoes the expected code. */
  function WrongCode(expectedCode: string): Response {
    Response(400, ConfirmationError(
      "Invalid confirmation code", expectedCode,
      "This is a simulation - in a real app, this code would be sent securely"))
  }

  /** `getGadgets`: the list for the query's status; 500 when the store rejects it. */
  method GetGadgets(db: GadgetTable, queryStatus: Option<string>) returns (resp: Response)
    ensures resp.status == 200 || resp == Response(500, Error("Failed to retrieve gadgets"))
    ensures resp.status == 200 <==> !Truthy(queryStatus) || ParseStatus(queryStatus.value).Some?
    ensures resp.status == 200 && !Truthy(queryStatus) ==> resp.body == GadgetList(db.rows)
    ensures resp.status == 200 && Truthy(queryStatus) ==>
      resp.body == GadgetList(FindMany(db.rows, ParseStatus(queryStatus.value)))
  {
    var gadgets := Service.GetAllGadgets(db, queryStatus);
    if gadgets.Threw? {
      return Response(500, Error("Failed to retrieve gadgets"));
    }
    resp := Response(200, GadgetList(gadgets.value));
  }

  /** `getGadget`: 404 exactly when the id is unknown, else 200 with the stored gadget. */
  method GetGadget(db: GadgetTable, id: Id) returns (resp: Response)
    ensures id !in db.rows ==> resp == NotFound
    ensures id in db.rows ==> resp == Response(200, GadgetBody(db.rows[id]))
  {
    var gadget := Service.GetGadgetById(db, id);
    if gadget.None? {
      return NotFound;
    }
    resp := Response(200, GadgetBody(gadget.value));
  }

  /**
   * `createGadget`: a falsy name gets 400 and the table is not touched; otherwise the
   * created gadget with 201. `None` while the codename search is still running.
   */
  method CreateGadget(db: GadgetTable, name: Option<string>, newId: Id, draws: seq<CodenameGenerator.Draw>)
    returns (resp: Option<Response>)
    requires db.Valid() && newId !in db.rows
    modifies db
    ensures db.Valid()
    ensures !Truthy(name) ==> resp == Some(NameRequired) && db.rows == old(db.rows)
    ensures Truthy(name) && resp.None? ==> db.rows == old(db.rows)
    ensures Truthy(name) ==> (resp.None? <==>
      forall i | 0 <= i < |draws| :: CodenameInUse(old(db.rows), CodenameGenerator.Candidate(draws[i])))
    ensures Truthy(name) && resp.Some? ==>
      && newId in db.rows
      && resp.value == Response(201, GadgetBody(db.rows[newId]))
      && db.rows == old(db.rows)[newId := db.rows[newId]]
      && db.rows[newId].name == name.value && db.rows[newId].status == Available
      && !CodenameInUse(old(db.rows), db.rows[newId].codename)
  {
    if !Truthy(name) {
      return Some(NameRequired);
    }
    var gadget := Service.CreateGadget(db, name.value, newId, draws);
    if gadget.None? {
      return None;
    }
    resp := Some(Response(201, GadgetBody(gadget.value)));
  }

  /**
   * `updateGadget`: 400 when neither name nor status is truthy, checked before the lookup
   * (so an unknown id gets 400 too); then 404 for an unknown id, 500 for a status outside
   * the enum, else 200 with the row whose supplied fields were overwritten.
   */
  method UpdateGadget(db: GadgetTable, id: Id, name: Option<string>, status: Option<string>)
    returns (resp: Response)
    requires db.Valid()
    modifies db
    ensures db.Valid()
    ensures !Truthy(name) && !Truthy(status) ==> resp == NothingToUpdate && db.rows == old(db.rows)
    ensures (Truthy(name) || Truthy(status)) && id !in old(db.rows) ==>
      resp == NotFound && db.rows == old(db.rows)
    ensures (Truthy(name) || Truthy(status)) && id in old(db.rows) && !AcceptedPatch(GadgetPatch(name, status)) ==>
      resp == Response(500, Error("Failed to update gadget")) && db.rows == old(db.rows)
    ensures (Truthy(name) || Truthy(status)) && id in old(db.rows) && AcceptedPatch(GadgetPatch(name, status)) ==>
      var g := Patched(old(db.rows)[id], GadgetPatch(name, status));
      resp == Response(200, GadgetBody(g)) && db.rows == old(db.rows)[id := g]
  {
    if !Truthy(name) && !Truthy(status) {
      return NothingToUpdate;
    }
    var gadget := Service.UpdateGadget(db, id, GadgetPatch(name, status));
    if gadget.Threw? {
      return Response(500, Error("Failed to update gadget"));
    }
    if gadget.value.None? {
      return NotFound;
    }
    resp := Response(200, GadgetBody(gadget.value.value));
  }

  /** `deleteGadget`: decommissions rather than removes; 404 for an unknown id. */
  method DeleteGadget(db: GadgetTable, id: Id, now: Time) returns (resp: Response)
    requires db.Valid()
    modifies db
    ensures db.Valid()
    ensures id !in old(db.rows) ==> resp == NotFound && db.rows == old(db.rows)
    ensures id in old(db.rows) ==>
      var g := old(db.rows)[id].(status := Decommissioned, decommissionedAt := Some(now));
      && db.rows == old(db.rows)[id := g]
      && resp == Response(200, GadgetMessage(DecommissionedMessage, g))
  {
    var gadget := Service.DecommissionGadget(db, id, now);
    if gadget.None? {
      return NotFound;
    }
    resp := Response(200, GadgetMessage(DecommissionedMessage, gadget.value));
  }

  /**
   * `selfDestructGadget`: the code is checked before the lookup. A falsy code, or one
   * other than the code generated for this request, gets 400 echoing that code and the
   * table is untouched; only a matching code reaches `destroy` (then 404 or 200).
   */
  method SelfDestructGadget(db: GadgetTable, id: Id, confirmationCode: Option<string>, expectedCode: string)
    returns (resp: Response)
    requires db.Valid()
    modifies db
    ensures db.Valid()
    ensures !Truthy(confirmationCode) || confirmationCode.value != expectedCode ==>
      resp == WrongCode(expectedCode) && db.rows == old(db.rows)
    ensures Truthy(confirmationCode) && confirmationCode.value == expectedCode && id !in old(db.rows) ==>
      resp == NotFound && db.rows == old(db.rows)
    ensures Truthy(confirmationCode) && confirmationCode.value == expectedCode && id in old(db.rows) ==>
      var g := old(db.rows)[id].(status := Destroyed);
      && db.rows == old(db.rows)[id := g]
      && resp == Response(200, GadgetMessage(DestroyedMessage, g))
  {
    if !Truthy(confirmationCode) || confirmationCode.value != expectedCode {
      return WrongCode(expectedCode);
    }
    var gadget := Service.DestroyGadget(db, id);
    if gadget.None? {
      return NotFound;
    }
    resp := Response(200, GadgetMessage(DestroyedMessage, gadget.value));
  }

  /**
   * `getGadgetsByStatus`: the filter is the query's `status`; the route's `:status`
   * segment is ignored, so with no query every gadget is listed.
   */
  method GetGadgetsByStatus(db: GadgetTable, pathStatus: string, queryStatus: Option<string>)
    returns (resp: Response)
    ensures queryStatus.None? ==> resp == Response(200, GadgetList(db.rows))
    ensures queryStatus.Some? && ParseStatus(queryStatus.value).None? ==>
      resp == Response(500, Error("Failed to retrieve gadgets by status"))
    ensures queryStatus.Some? && ParseStatus(queryStatus.value).Some? ==>
      resp == Response(200, GadgetList(FindMany(db.rows, ParseStatus(queryStatus.value))))
  {
    var gadgets := Service.GetGadgetsByStatus(db, queryStatus);
    if gadgets.Threw? {
      return Response(500, Error("Failed to retrieve gadgets by status"));
    }
    resp := Response(200, GadgetList(gadgets.value));
  }
}
