/** The `carts` table of the cart service and the repository that reads and
    writes it. Each repository method issues one statement against the table;
    here the table is a map from cart id to row, and "now" (the service's
    clock, `Date.now()`, which the statement converts with `to_timestamp`)
    is an argument. */
module CartRepository {
  import opened Wrappers
  import opened JsValues

  type CartId = nat

  /** A point in time as the service's clock (`Date.now()`) reports it,
      after `to_timestamp` converts it to seconds; fractions are dropped. */
  type Timestamp = int

  /** Who a cart belongs to: a signed-in user (column `uid`) or an anonymous
      session (column `sid`). A row records at most one of the two: when the
      uid is falsy, `sid` is written as given and may be absent. */
  datatype CartOwner = ByUser(uid: Id) | BySession(sid: Option<Id>)

  /** The `as` argument of createCart: the identities the caller knows. */
  datatype Requester = Requester(uid: Option<Id>, sid: Option<Id>)

  datatype CartRow = CartRow(
    cartId: CartId,
    owner: CartOwner,
    locked: bool,
    dateCreated: Timestamp,
    dateModified: Option<Timestamp>,
    dateCheckout: Option<Timestamp>)

  /** The columns `cart_id` and `locked` that lockCart and unlockCart ask the
      update to return for each row it changed. */
  datatype LockRow = LockRow(cartId: CartId, locked: bool)

  /** Failure of the insert in createCart: the table's key already holds
      this id, so the database rejects the row. */
  datatype StoreError = UniqueViolation(cartId: CartId)

  /** The object isLocked throws, with its `message` and `what` fields. */
  datatype Thrown = Thrown(message: string, what: string)

  function CartDoesNotExist(cartId: CartId): Thrown
  {
    Thrown("Cart " + Decimal(cartId) + " does not exist.", "cart_does_not_exist")
  }

  type Table = map<CartId, CartRow>

  /** Every row is stored under its own `cart_id`. */
  predicate WellKeyed(t: Table)
  {
    forall id :: id in t ==> t[id].cartId == id
  }

  /** The owner column createCart fills in: `uid` when the caller's uid is
      truthy, otherwise `sid`, whatever it holds. */
  function OwnerOf(who: Requester): (o: CartOwner)
    ensures o.ByUser? <==> Truthy(who.uid)
    ensures o.ByUser? ==> who.uid == Some(o.uid)
    ensures o.BySession? ==> o.sid == who.sid
  {
    if Truthy(who.uid) then ByUser(who.uid.value) else BySession(who.sid)
  }

  /** The row createCart inserts. */
  function NewRow(cartId: CartId, who: Requester, now: Timestamp): (row: CartRow)
    ensures row.cartId == cartId && row.owner == OwnerOf(who)
    ensures !row.locked
    ensures row.dateCreated == now
    ensures row.dateModified == None && row.dateCheckout == None
  {
    CartRow(cartId, OwnerOf(who), false, now, None, None)
  }

  /** The SET clause of a single-column update on `carts`: `SetLocked` for
      lockCart and unlockCart, `SetModified` for modified, `SetCheckout` for
      updateCheckoutTime (a time) and clearCheckoutTime (`None`). */
  datatype Assignment =
    | SetLocked(flag: bool)
    | SetModified(modifiedAt: Timestamp)
    | SetCheckout(checkoutAt: Option<Timestamp>)

  /** A row after an assignment: the named column takes the new value and
      every other column keeps its old one. */
  function Assign(row: CartRow, a: Assignment): (r: CartRow)
    ensures r.cartId == row.cartId && r.owner == row.owner && r.dateCreated == row.dateCreated
    ensures r.locked == (if a.SetLocked? then a.flag else row.locked)
    ensures r.dateModified == (if a.SetModified? then Some(a.modifiedAt) else row.dateModified)
    ensures r.dateCheckout == (if a.SetCheckout? then a.checkoutAt else row.dateCheckout)
  {
    match a
    case SetLocked(flag) => row.(locked := flag)
    case SetModified(at) => row.(dateModified := Some(at))
    case SetCheckout(at) => row.(dateCheckout := at)
  }

  /** `UPDATE carts SET ... WHERE cart_id = id`: the matching row, if any,
      takes the assignment; all other rows and the set of ids stay as they were. */
  function Update(t: Table, id: CartId, a: Assignment): (t': Table)
    ensures t'.Keys == t.Keys
    ensures id in t ==> t'[id] == Assign(t[id], a)
    ensures forall k :: k in t && k != id ==> t'[k] == t[k]
    ensures id !in t ==> t' == t
  {
    if id in t then t[id := Assign(t[id], a)] else t
  }

  /** Number of rows an update on `id` affects. */
  function Affected(t: Table, id: CartId): (n: nat)
    ensures n <= 1
    ensures n == 1 <==> id in t
  {
    if id in t then 1 else 0
  }

  /** lockCart is an unconditional update: locking a locked cart succeeds and
      leaves the table as one lock would. The same holds for unlockCart. */
  lemma {:induction false} LockIdempotent(t: Table, id: CartId, flag: bool)
    ensures Update(Update(t, id, SetLocked(flag)), id, SetLocked(flag)) == Update(t, id, SetLocked(flag))
  {
  }

  /** Unlocking after locking leaves the cart unlocked and every other row
      as it was; on a cart that was unlocked it restores the table exactly. */
  lemma {:induction false} LockThenUnlock(t: Table, id: CartId)
    ensures Update(Update(t, id, SetLocked(true)), id, SetLocked(false)) == Update(t, id, SetLocked(false))
    ensures id in t && !t[id].locked ==> Update(Update(t, id, SetLocked(true)), id, SetLocked(false)) == t
  {
  }

  /** The last lock-column write decides what isLocked reports, whatever
      happened before it. */
  lemma {:induction false} LockFlagAfterUpdate(t: Table, id: CartId, flag: bool)
    requires id in t
    ensures id in Update(t, id, SetLocked(flag)) && Update(t, id, SetLocked(flag))[id].locked == flag
  {
  }

  /** Writing the checkout time or the modified time never touches the lock. */
  lemma {:induction false} TimestampsKeepLock(t: Table, id: CartId, a: Assignment)
    requires !a.SetLocked?
    ensures forall k :: k in t ==> k in Update(t, id, a) && Update(t, id, a)[k].locked == t[k].locked
  {
  }

  /** Updates of different columns of the same cart commute, so the order in
      which checkout time and lock are written does not matter. */
  lemma {:induction false} DifferentColumnsCommute(t: Table, id: CartId, a: Assignment, b: Assignment)
    requires !(a.SetLocked? && b.SetLocked?) && !(a.SetModified? && b.SetModified?) && !(a.SetCheckout? && b.SetCheckout?)
    ensures Update(Update(t, id, a), id, b) == Update(Update(t, id, b), id, a)
  {
  }

  /** setCheckout then clear leaves the row as clearing alone would. */
  lemma {:induction false} ClearAfterUpdateCheckout(t: Table, id: CartId, now: Timestamp)
    ensures Update(Update(t, id, SetCheckout(Some(now))), id, SetCheckout(None)) == Update(t, id, SetCheckout(None))
  {
  }

  class ShoppingCartRepository {
    var carts: Table

    ghost predicate Valid()
      reads this
    {
      WellKeyed(carts)
    }

    constructor ()
      ensures Valid() && carts == map[]
    {
      carts := map[];
    }

    /** `TRUNCATE TABLE carts CASCADE`: every cart is gone. */
    method DeleteAll()
      modifies this
      ensures Valid() && carts == map[]
    {
      carts := map[];
    }

    /** `SELECT * FROM carts WHERE cart_id = id`: the one matching row, or none. */
    method GetCart(cartId: CartId) returns (rows: seq<CartRow>)
      requires Valid()
      ensures |rows| <= 1
      ensures rows == [] <==> cartId !in carts
      ensures forall i :: 0 <= i < |rows| ==> rows[i].cartId == cartId && rows[i] == carts[cartId]
    {
      if cartId in carts {
        rows := [carts[cartId]];
      } else {
        rows := [];
      }
    }

    /** Inserts a fresh unlocked row stamped with `now` and returns it; an id
        already in the table makes the insert fail and changes nothing. */
    method CreateCart(cartId: CartId, who: Requester, now: Timestamp) returns (r: Result<seq<CartRow>, StoreError>)
      requires Valid()
      modifies this
      ensures Valid()
      ensures cartId in old(carts) ==> r == Err(UniqueViolation(cartId)) && carts == old(carts)
      ensures cartId !in old(carts) ==>
        && r == Ok([NewRow(cartId, who, now)])
        && carts == old(carts)[cartId := NewRow(cartId, who, now)]
    {
      if cartId in carts {
        r := Err(UniqueViolation(cartId));
      } else {
        var row := NewRow(cartId, who, now);
        carts := carts[cartId := row];
        r := Ok([row]);
      }
    }

    /** Looks the cart up first: absent, it returns 0 and deletes nothing;
        present, it deletes that row alone and returns the count removed. */
    method DeleteCart(cartId: CartId) returns (removed: nat)
      requires Valid()
      modifies this
      ensures Valid()
      ensures removed == Affected(old(carts), cartId)
      ensures carts == old(carts) - {cartId}
      ensures cartId !in old(carts) ==> carts == old(carts)
    {
      var found := GetCart(cartId);
      if |found| == 0 {
        return 0;
      }
      carts := carts - {cartId};
      removed := 1;
    }

    /** Stamps `date_modified` of the matching cart with `now`; returns the ids
        of the rows it changed. */
    method Modified(cartId: CartId, now: Timestamp) returns (ids: seq<CartId>)
      requires Valid()
      modifies this
      ensures Valid()
      ensures carts == Update(old(carts), cartId, SetModified(now))
      ensures ids == if cartId in old(carts) then [cartId] else []
    {
      ids := if cartId in carts then [cartId] else [];
      carts := Update(carts, cartId, SetModified(now));
    }

    /** Sets `locked` to true on the matching cart, whatever it was before;
        returns `cart_id` and `locked` of the rows it changed. */
    method LockCart(cartId: CartId) returns (rows: seq<LockRow>)
      requires Valid()
      modifies this
      ensures Valid()
      ensures carts == Update(old(carts), cartId, SetLocked(true))
      ensures rows == if cartId in old(carts) then [LockRow(cartId, true)] else []
    {
      rows := if cartId in carts then [LockRow(cartId, true)] else [];
      carts := Update(carts, cartId, SetLocked(true));
    }

    /** Sets `locked` to false on the matching cart, whatever it was before. */
    method UnlockCart(cartId: CartId) returns (rows: seq<LockRow>)
      requires Valid()
      modifies this
      ensures Valid()
      ensures carts == Update(old(carts), cartId, SetLocked(false))
      ensures rows == if cartId in old(carts) then [LockRow(cartId, false)] else []
    {
      rows := if cartId in carts then [LockRow(cartId, false)] else [];
      carts := Update(carts, cartId, SetLocked(false));
    }

    /** Reads the lock flag; an absent cart makes it throw
        `cart_does_not_exist`. */
    method IsLocked(cartId: CartId) returns (r: Result<bool, Thrown>)
      requires Valid()
      ensures r.Err? <==> cartId !in carts
      ensures r.Err? ==> r.error == CartDoesNotExist(cartId) && r.error.what == "cart_does_not_exist"
      ensures r.Ok? ==> r.value == carts[cartId].locked
    {
      if cartId !in carts {
        return Err(CartDoesNotExist(cartId));
      }
      r := Ok(carts[cartId].locked);
    }

    /** Stamps `date_checkout` of the matching cart with `now`; returns the
        number of rows changed. */
    method UpdateCheckoutTime(cartId: CartId, now: Timestamp) returns (count: nat)
      requires Valid()
      modifies this
      ensures Valid()
      ensures carts == Update(old(carts), cartId, SetCheckout(Some(now)))
      ensures count == Affected(old(carts), cartId)
    {
      count := Affected(carts, cartId);
      carts := Update(carts, cartId, SetCheckout(Some(now)));
    }

    /** Sets `date_checkout` of the matching cart to NULL; returns the number
        of rows changed. */
    method ClearCheckoutTime(cartId: CartId) returns (count: nat)
      requires Valid()
      modifies this
      ensures Valid()
      ensures carts == Update(old(carts), cartId, SetCheckout(None))
      ensures count == Affected(old(carts), cartId)
    {
      count := Affected(carts, cartId);
      carts := Update(carts, cartId, SetCheckout(None));
    }
  }

  /** A checkout round on one cart, driven only through the repository's
      contracts: the cart is created unlocked, lockCart makes isLocked report
      true (twice in a row, since the lock is unconditional), unlockCart makes
      it report false, and an id never created makes isLocked throw. */
  method LockRound(cartId: CartId, who: Requester, now: Timestamp)
    returns (created: Result<seq<CartRow>, StoreError>, before: Result<bool, Thrown>,
             whileLocked: Result<bool, Thrown>, relock: seq<LockRow>,
             after: Result<bool, Thrown>, unknown: Result<bool, Thrown>)
    ensures created == Ok([NewRow(cartId, who, now)])
    ensures before == Ok(false)
    ensures whileLocked == Ok(true)
    ensures relock == [LockRow(cartId, true)]
    ensures after == Ok(false)
    ensures unknown == Err(CartDoesNotExist(cartId + 1))
  {
    var repo := new ShoppingCartRepository();
    created := repo.CreateCart(cartId, who, now);
    before := repo.IsLocked(cartId);
    var first := repo.LockCart(cartId);
    relock := repo.LockCart(cartId);
    whileLocked := repo.IsLocked(cartId);
    var _ := repo.UpdateCheckoutTime(cartId, now + 1);
    var _ := repo.UnlockCart(cartId);
    after := repo.IsLocked(cartId);
    unknown := repo.IsLocked(cartId + 1);
  }
}
