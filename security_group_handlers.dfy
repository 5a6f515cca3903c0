/** The handlers of the authentication service's user-security-group
    endpoints. Each takes the request's parts and the answer the model would
    give if it is called, and returns the call it makes and the outcome. */
module SecurityGroupHandlers {
  import opened Wrappers
  import opened HandlerSupport

  /** The properties createUserSecurityGroup requires, in the order it
      checks them. */
  const GroupFields: seq<string> := ["userId", "storeId", "securityGroupId"]

  /** createUserSecurityGroup: an absent body is refused, then the first
      missing required property is named; a complete payload passes its
      `userId`, `storeId` and `securityGroupId` to the model, whose result
      comes back with 201. */
  function CreateUserSecurityGroup<V, T>(payload: Option<Payload<V>>, created: T): (h: Handled<(V, V, V), T>)
    ensures payload.None? ==> h == Handled(None, BadRequest(BodyEmpty))
    ensures payload.Some? && !AllPresent(GroupFields, payload.value.Keys) ==>
      && h.call.None?
      && exists i :: MissingAt(GroupFields, payload.value.Keys, i) && h.outcome == BadRequest(NotSpecified(GroupFields[i]))
    ensures payload.Some? && AllPresent(GroupFields, payload.value.Keys) ==>
      && "userId" in payload.value && "storeId" in payload.value && "securityGroupId" in payload.value
      && h.call == Some((payload.value["userId"], payload.value["storeId"], payload.value["securityGroupId"]))
      && h.outcome == Created("User security group created", created)
    ensures h.call.None? <==> StatusCode(h.outcome) == 400
  {
    if payload.None? then Handled(None, BadRequest(BodyEmpty))
    else
      var keys := payload.value.Keys;
      FirstMissingValidIff(GroupFields, keys);
      match FirstMissing(GroupFields, keys)
      case Invalid(prop) =>
        FirstMissingIsFirst(GroupFields, keys);
        Handled(None, BadRequest(NotSpecified(prop)))
      case Valid =>
        assert GroupFields[0] in keys && GroupFields[1] in keys && GroupFields[2] in keys;
        var p := payload.value;
        Handled(Some((p["userId"], p["storeId"], p["securityGroupId"])), Created("User security group created", created))
  }

  /** removeUserSecurityGroupByUserId: always asks the model to delete the
      user's groups; no row removed is a 400 naming the user, otherwise 200
      with the count removed. */
  function RemoveUserSecurityGroupByUserId(userId: string, removed: nat): (h: Handled<string, nat>)
    ensures h.call == Some(userId)
    ensures StatusCode(h.outcome) == 400 <==> removed == 0
    ensures removed == 0 ==> h.outcome == BadRequest("User Security Group does not exist for user " + userId)
    ensures removed != 0 ==> h.outcome == Success("User security group removed.", removed)
  {
    if removed == 0 then Handled(Some(userId), BadRequest("User Security Group does not exist for user " + userId))
    else Handled(Some(userId), Success("User security group removed.", removed))
  }

  /** removeUserSecurityGroup: always asks the model to delete the user's
      group in the store; no row removed is a 400 naming both, otherwise 200
      with the count removed. */
  function RemoveUserSecurityGroup(userId: string, storeId: string, removed: nat): (h: Handled<(string, string), nat>)
    ensures h.call == Some((userId, storeId))
    ensures StatusCode(h.outcome) == 400 <==> removed == 0
    ensures removed == 0 ==>
      h.outcome == BadRequest("User Security Group does not exist with user " + userId + " and store " + storeId + ".")
    ensures removed != 0 ==> h.outcome == Success("User security group removed.", removed)
  {
    if removed == 0 then
      Handled(Some((userId, storeId)), BadRequest("User Security Group does not exist with user " + userId + " and store " + storeId + "."))
    else Handled(Some((userId, storeId)), Success("User security group removed.", removed))
  }
}
