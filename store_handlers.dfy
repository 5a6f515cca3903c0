/** The handlers of the authentication service's store endpoints. Each takes
    the request's parts and the answer the stores model would give if it is
    called, and returns the call it makes to the model and the outcome. */
module StoreHandlers {
  import opened Wrappers
  import opened JsValues
  import opened HandlerSupport

  /** The properties addStore requires, in the order it checks them. */
  const StoreFields: seq<string> := ["name", "phone", "email"]

  /** addStore: an absent body is refused, then the first missing required
      property is named; only a complete payload reaches createStore, and
      its result comes back with 201. */
  function AddStore<V, T>(payload: Option<Payload<V>>, created: T): (h: Handled<Payload<V>, T>)
    ensures payload.None? ==> h == Handled(None, BadRequest(BodyEmpty))
    ensures payload.Some? && "name" !in payload.value ==>
      h == Handled(None, BadRequest(NotSpecified("name")))
    ensures payload.Some? && "name" in payload.value && "phone" !in payload.value ==>
      h == Handled(None, BadRequest(NotSpecified("phone")))
    ensures payload.Some? && "name" in payload.value && "phone" in payload.value && "email" !in payload.value ==>
      h == Handled(None, BadRequest(NotSpecified("email")))
    ensures payload.Some? && AllPresent(StoreFields, payload.value.Keys) ==>
      h == Handled(Some(payload.value), Created("Added store.", created))
    ensures h.call.None? <==> StatusCode(h.outcome) == 400
  {
    if payload.None? then Handled(None, BadRequest(BodyEmpty))
    else
      FirstMissingValidIff(StoreFields, payload.value.Keys);
      assert StoreFields[1..] == ["phone", "email"] && StoreFields[1..][1..] == ["email"];
      match FirstMissing(StoreFields, payload.value.Keys)
      case Invalid(prop) => Handled(None, BadRequest(NotSpecified(prop)))
      case Valid => Handled(Some(payload.value), Created("Added store.", created))
  }

  /** deleteStore: always asks the model to delete the store; no row removed
      is a 400 naming the store, otherwise 200 with the count removed. */
  function DeleteStore(id: string, removed: nat): (h: Handled<string, nat>)
    ensures h.call == Some(id)
    ensures StatusCode(h.outcome) == 400 <==> removed == 0
    ensures removed == 0 ==> h.outcome == BadRequest("Store " + id + " not found")
    ensures removed != 0 ==> h.outcome == Success("Store deleted.", removed)
  {
    if removed == 0 then Handled(Some(id), BadRequest("Store " + id + " not found"))
    else Handled(Some(id), Success("Store deleted.", removed))
  }

  /** updateStore: an absent body is refused before any update; otherwise the
      payload goes to the model unchecked and its answer comes back with 200. */
  function UpdateStore<V>(id: string, payload: Option<Payload<V>>, updated: nat): (h: Handled<(string, Payload<V>), nat>)
    ensures payload.None? ==> h == Handled(None, BadRequest(BodyEmpty))
    ensures payload.Some? ==> h.call == Some((id, payload.value))
    ensures payload.Some? ==> h.outcome.Success? && h.outcome.data == updated
    ensures payload.Some? ==> h.outcome.message == "Number of stores updated: " + Decimal(updated)
  {
    if payload.None? then Handled(None, BadRequest(BodyEmpty))
    else Handled(Some((id, payload.value)), Success("Number of stores updated: " + Decimal(updated), updated))
  }
}
