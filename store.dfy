/**
 * The Barter database as one in-memory store: the four tables of the consolidated
 * migration (src/server/Migrations/20251109213612_Common.cs), the invariant its
 * CHECK constraints, unique indexes and foreign keys maintain, and inserts and
 * deletes that refuse or cascade exactly as those constraints declare.
 */
module Store {
  import opened Wrappers
  import opened Schema

  /** Why the database refuses a statement; the string is the name of the violated constraint. */
  datatype DbError =
    | NotFound
    | PrimaryKeyViolation(constraint: string)
    | CheckViolation(constraint: string)
    | UniqueViolation(constraint: string)
    | ForeignKeyViolation(constraint: string)

  type Users = map<Guid, UserRow>
  type Items = map<Guid, ItemRow>
  type Images = map<Guid, ImageRow>
  type Trades = map<Guid, TradeRow>

  /** IX_Users_Email (unique). */
  predicate EmailsUnique(users: Users) {
    forall a, b | a in users && b in users && a != b :: users[a].email != users[b].email
  }

  /** IX_Images_Key (unique). */
  predicate ImageKeysUnique(images: Images) {
    forall a, b | a in images && b in images && a != b :: images[a].key != images[b].key
  }

  predicate EmailTaken(users: Users, email: string) {
    exists u | u in users :: users[u].email == email
  }

  predicate KeyTaken(images: Images, key: string) {
    exists m | m in images :: images[m].key == key
  }

  /** Every constraint of the schema holds of the four tables together. */
  predicate Consistent(users: Users, items: Items, images: Images, trades: Trades) {
    && (forall u | u in users :: AuthenticationFieldsValid(users[u]))
    && (forall t | t in trades :: DifferentUsers(trades[t]))
    && EmailsUnique(users)
    && ImageKeysUnique(images)
    // FK_Users_Images_ProfilePictureID
    && (forall u | u in users && users[u].profilePictureId.Some? :: users[u].profilePictureId.value in images)
    // FK_Items_Users_OwnerID
    && (forall i | i in items :: items[i].ownerId in users)
    // FK_Images_Items_ItemID
    && (forall m | m in images :: images[m].itemId in items)
    // FK_Trades_Users_InitiatorID and FK_Trades_Users_ReceiverID
    && (forall t | t in trades :: trades[t].initiatorId in users && trades[t].receiverId in users)
  }

  /** The items whose OwnerID is `u`: the `User.Items` navigation collection. */
  function OwnedItems(items: Items, u: Guid): set<Guid> {
    set i | i in items && items[i].ownerId == u
  }

  /** The images whose ItemID is one of `doomed`. */
  function ImagesOf(images: Images, doomed: set<Guid>): set<Guid> {
    set m | m in images && images[m].itemId in doomed
  }

  /** Some trade has `u` as its initiator or receiver. */
  predicate InTrade(trades: Trades, u: Guid) {
    exists t | t in trades :: trades[t].initiatorId == u || trades[t].receiverId == u
  }

  /** Some user's ProfilePictureID is one of `doomed`. */
  predicate IsProfilePicture(users: Users, doomed: set<Guid>) {
    exists u | u in users :: users[u].profilePictureId.Some? && users[u].profilePictureId.value in doomed
  }

  /** `e` names a constraint that inserting `row` under `id` into Users violates. */
  predicate UserInsertViolates(users: Users, images: Images, id: Guid, row: UserRow, e: DbError) {
    || (e == PrimaryKeyViolation("PK_Users") && id in users)
    || (e == CheckViolation("CHECK_User_AuthenticationFields") && !AuthenticationFieldsValid(row))
    || (e == UniqueViolation("IX_Users_Email") && EmailTaken(users, row.email))
    || (e == ForeignKeyViolation("FK_Users_Images_ProfilePictureID")
        && row.profilePictureId.Some? && row.profilePictureId.value !in images)
  }

  predicate UserInsertAllowed(users: Users, images: Images, id: Guid, row: UserRow) {
    && id !in users
    && AuthenticationFieldsValid(row)
    && !EmailTaken(users, row.email)
    && (row.profilePictureId.Some? ==> row.profilePictureId.value in images)
  }

  predicate ItemInsertViolates(users: Users, items: Items, id: Guid, row: ItemRow, e: DbError) {
    || (e == PrimaryKeyViolation("PK_Items") && id in items)
    || (e == ForeignKeyViolation("FK_Items_Users_OwnerID") && row.ownerId !in users)
  }

  predicate ImageInsertViolates(items: Items, images: Images, id: Guid, row: ImageRow, e: DbError) {
    || (e == PrimaryKeyViolation("PK_Images") && id in images)
    || (e == UniqueViolation("IX_Images_Key") && KeyTaken(images, row.key))
    || (e == ForeignKeyViolation("FK_Images_Items_ItemID") && row.itemId !in items)
  }

  predicate TradeInsertViolates(users: Users, trades: Trades, id: Guid, row: TradeRow, e: DbError) {
    || (e == CheckViolation("CK_Trade_DifferentUsers") && !DifferentUsers(row))
    || (e == PrimaryKeyViolation("PK_Trades") && id in trades)
    || (e == ForeignKeyViolation("FK_Trades_Users_InitiatorID") && row.initiatorId !in users)
    || (e == ForeignKeyViolation("FK_Trades_Users_ReceiverID") && row.receiverId !in users)
  }

  predicate TradeInsertAllowed(users: Users, trades: Trades, id: Guid, row: TradeRow) {
    DifferentUsers(row) && id !in trades && row.initiatorId in users && row.receiverId in users
  }

  /** `e` names why deleting user `u` is refused: no such row, a trade that RESTRICTs it, or an
      image the cascade would remove that a remaining user still has as profile picture
      (that foreign key has the default NO ACTION). */
  predicate UserDeleteViolates(users: Users, items: Items, images: Images, trades: Trades, u: Guid, e: DbError) {
    || (e == NotFound && u !in users)
    || (e == ForeignKeyViolation("FK_Trades_Users_InitiatorID") && exists t | t in trades :: trades[t].initiatorId == u)
    || (e == ForeignKeyViolation("FK_Trades_Users_ReceiverID") && exists t | t in trades :: trades[t].receiverId == u)
    || (e == ForeignKeyViolation("FK_Users_Images_ProfilePictureID")
        && IsProfilePicture(users - {u}, ImagesOf(images, OwnedItems(items, u))))
  }

  predicate UserDeleteAllowed(users: Users, items: Items, images: Images, trades: Trades, u: Guid) {
    && u in users
    && !InTrade(trades, u)
    && !IsProfilePicture(users - {u}, ImagesOf(images, OwnedItems(items, u)))
  }

  predicate ItemDeleteViolates(users: Users, items: Items, images: Images, i: Guid, e: DbError) {
    || (e == NotFound && i !in items)
    || (e == ForeignKeyViolation("FK_Users_Images_ProfilePictureID") && IsProfilePicture(users, ImagesOf(images, {i})))
  }

  /** Deleting a user with its cascade (their items, then those items' images) keeps every
      constraint, provided the delete is allowed. */
  lemma UserCascadeKeepsConsistency(users: Users, items: Items, images: Images, trades: Trades, u: Guid)
    requires Consistent(users, items, images, trades)
    requires UserDeleteAllowed(users, items, images, trades, u)
    ensures var doomed := OwnedItems(items, u);
      Consistent(users - {u}, items - doomed, images - ImagesOf(images, doomed), trades)
  {
  }

  /** Deleting an item with its images keeps every constraint, provided none of the images is a
      profile picture. */
  lemma ItemCascadeKeepsConsistency(users: Users, items: Items, images: Images, trades: Trades, i: Guid)
    requires Consistent(users, items, images, trades)
    requires i in items && !IsProfilePicture(users, ImagesOf(images, {i}))
    ensures Consistent(users, items - {i}, images - ImagesOf(images, {i}), trades)
  {
  }

  /** The cascade is necessary: removing a user who owns items, and nothing else, breaks
      FK_Items_Users_OwnerID. */
  lemma OwnerRemovalNeedsCascade(users: Users, items: Items, images: Images, trades: Trades, u: Guid)
    requires OwnedItems(items, u) != {}
    ensures !Consistent(users - {u}, items, images, trades)
  {
    var i :| i in OwnedItems(items, u);
    assert items[i].ownerId !in users - {u};
  }

  /** The image cascade is necessary: removing items whose images remain breaks FK_Images_Items_ItemID. */
  lemma ItemRemovalNeedsCascade(users: Users, items: Items, images: Images, trades: Trades, doomed: set<Guid>)
    requires ImagesOf(images, doomed) != {}
    ensures !Consistent(users, items - doomed, images, trades)
  {
    var m :| m in ImagesOf(images, doomed);
    assert images[m].itemId !in items - doomed;
  }

  /** The restriction is necessary: whatever is cascaded, removing a party to a trade breaks a
      trade foreign key. */
  lemma TradePartyRemovalBreaksTrade(users: Users, items: Items, images: Images, trades: Trades, u: Guid)
    requires InTrade(trades, u)
    ensures !Consistent(users - {u}, items, images, trades)
  {
    var t :| t in trades && (trades[t].initiatorId == u || trades[t].receiverId == u);
    assert !(trades[t].initiatorId in users - {u} && trades[t].receiverId in users - {u});
  }

  /** In a consistent store every item is in the `Items` collection of exactly one user: its owner. */
  lemma ItemsPartitionedByOwner(users: Users, items: Items, images: Images, trades: Trades, i: Guid)
    requires Consistent(users, items, images, trades)
    requires i in items
    ensures items[i].ownerId in users && i in OwnedItems(items, items[i].ownerId)
    ensures forall u | i in OwnedItems(items, u) :: u == items[i].ownerId
  {
  }

  /** The database as one object whose four tables statements change in place. */
  class Database {
    var users: Users
    var items: Items
    var images: Images
    var trades: Trades

    predicate Valid()
      reads this
    {
      Consistent(users, items, images, trades)
    }

    /** `User.Items`: the items whose OwnerID is `u`. */
    function ItemsOf(u: Guid): set<Guid>
      reads this
    {
      OwnedItems(items, u)
    }

    /** The state after the migration's `Up`: four empty tables. */
    constructor ()
      ensures Valid()
      ensures users == map[] && items == map[] && images == map[] && trades == map[]
    {
      users, items, images, trades := map[], map[], map[], map[];
    }

    /** INSERT INTO Users. */
    method InsertUser(id: Guid, row: UserRow) returns (r: Outcome<DbError>)
      requires Valid()
      modifies this`users
      ensures Valid()
      ensures r.Pass? <==> UserInsertAllowed(old(users), images, id, row)
      ensures r.Pass? ==> users == old(users)[id := row]
      ensures r.Fail? ==> users == old(users) && UserInsertViolates(users, images, id, row, r.error)
    {
      if !AuthenticationFieldsValid(row) {
        return Fail(CheckViolation("CHECK_User_AuthenticationFields"));
      }
      if id in users {
        return Fail(PrimaryKeyViolation("PK_Users"));
      }
      if EmailTaken(users, row.email) {
        return Fail(UniqueViolation("IX_Users_Email"));
      }
      if row.profilePictureId.Some? && row.profilePictureId.value !in images {
        return Fail(ForeignKeyViolation("FK_Users_Images_ProfilePictureID"));
      }
      users := users[id := row];
      r := Pass;
    }

    /** INSERT INTO Items. */
    method InsertItem(id: Guid, row: ItemRow) returns (r: Outcome<DbError>)
      requires Valid()
      modifies this`items
      ensures Valid()
      ensures r.Pass? <==> id !in old(items) && row.ownerId in users
      ensures r.Pass? ==> items == old(items)[id := row]
      ensures r.Fail? ==> items == old(items) && ItemInsertViolates(users, items, id, row, r.error)
    {
      if id in items {
        return Fail(PrimaryKeyViolation("PK_Items"));
      }
      if row.ownerId !in users {
        return Fail(ForeignKeyViolation("FK_Items_Users_OwnerID"));
      }
      items := items[id := row];
      r := Pass;
    }

    /** INSERT INTO Images. */
    method InsertImage(id: Guid, row: ImageRow) returns (r: Outcome<DbError>)
      requires Valid()
      modifies this`images
      ensures Valid()
      ensures r.Pass? <==> id !in old(images) && !KeyTaken(old(images), row.key) && row.itemId in items
      ensures r.Pass? ==> images == old(images)[id := row]
      ensures r.Fail? ==> images == old(images) && ImageInsertViolates(items, images, id, row, r.error)
    {
      if id in images {
        return Fail(PrimaryKeyViolation("PK_Images"));
      }
      if KeyTaken(images, row.key) {
        return Fail(UniqueViolation("IX_Images_Key"));
      }
      if row.itemId !in items {
        return Fail(ForeignKeyViolation("FK_Images_Items_ItemID"));
      }
      images := images[id := row];
      r := Pass;
    }

    /** INSERT INTO Trades. The offered and sought item ids are stored as given. */
    method InsertTrade(id: Guid, row: TradeRow) returns (r: Outcome<DbError>)
      requires Valid()
      modifies this`trades
      ensures Valid()
      ensures r.Pass? <==> TradeInsertAllowed(users, old(trades), id, row)
      ensures r.Pass? ==> trades == old(trades)[id := row]
      ensures r.Fail? ==> trades == old(trades) && TradeInsertViolates(users, trades, id, row, r.error)
    {
      if !DifferentUsers(row) {
        return Fail(CheckViolation("CK_Trade_DifferentUsers"));
      }
      if id in trades {
        return Fail(PrimaryKeyViolation("PK_Trades"));
      }
      if row.initiatorId !in users {
        return Fail(ForeignKeyViolation("FK_Trades_Users_InitiatorID"));
      }
      if row.receiverId !in users {
        return Fail(ForeignKeyViolation("FK_Trades_Users_ReceiverID"));
      }
      trades := trades[id := row];
      r := Pass;
    }

    /** DELETE FROM Users: refused while a trade names the user; otherwise the user's items go
        (FK_Items_Users_OwnerID, CASCADE) and with them their images (FK_Images_Items_ItemID,
        CASCADE). Trades are never touched. */
    method DeleteUser(u: Guid) returns (r: Outcome<DbError>)
      requires Valid()
      modifies this`users, this`items, this`images
      ensures Valid()
      ensures r.Pass? <==> UserDeleteAllowed(old(users), old(items), old(images), trades, u)
      ensures r.Pass? ==>
        && users == old(users) - {u}
        && items == old(items) - old(ItemsOf(u))
        && images == old(images) - ImagesOf(old(images), old(ItemsOf(u)))
      ensures r.Fail? ==>
        && users == old(users) && items == old(items) && images == old(images)
        && UserDeleteViolates(users, items, images, trades, u, r.error)
    {
      var us, its, ims := users, items, images;
      if u !in us {
        return Fail(NotFound);
      }
      if exists t | t in trades :: trades[t].initiatorId == u {
        assert InTrade(trades, u);
        return Fail(ForeignKeyViolation("FK_Trades_Users_InitiatorID"));
      }
      if exists t | t in trades :: trades[t].receiverId == u {
        assert InTrade(trades, u);
        return Fail(ForeignKeyViolation("FK_Trades_Users_ReceiverID"));
      }
      var doomedItems := OwnedItems(its, u);
      var doomedImages := ImagesOf(ims, doomedItems);
      if IsProfilePicture(us - {u}, doomedImages) {
        return Fail(ForeignKeyViolation("FK_Users_Images_ProfilePictureID"));
      }
      assert UserDeleteAllowed(us, its, ims, trades, u);
      UserCascadeKeepsConsistency(us, its, ims, trades, u);
      users, items, images := us - {u}, its - doomedItems, ims - doomedImages;
      r := Pass;
    }

    /** DELETE FROM Items: the item and its images go; users, other items and trades stay. */
    method DeleteItem(i: Guid) returns (r: Outcome<DbError>)
      requires Valid()
      modifies this`items, this`images
      ensures Valid()
      ensures r.Pass? <==> i in old(items) && !IsProfilePicture(users, ImagesOf(old(images), {i}))
      ensures r.Pass? ==> items == old(items) - {i} && images == old(images) - ImagesOf(old(images), {i})
      ensures r.Fail? ==> items == old(items) && images == old(images) && ItemDeleteViolates(users, items, images, i, r.error)
    {
      if i !in items {
        return Fail(NotFound);
      }
      var doomedImages := ImagesOf(images, {i});
      if IsProfilePicture(users, doomedImages) {
        return Fail(ForeignKeyViolation("FK_Users_Images_ProfilePictureID"));
      }
      ItemCascadeKeepsConsistency(users, items, images, trades, i);
      items := items - {i};
      images := images - doomedImages;
      r := Pass;
    }
  }
}
