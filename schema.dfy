/**
 * The rows of the Barter database as the consolidated migration
 * (src/server/Migrations/20251109213612_Common.cs) and the EF model
 * (src/server/Database.cs) declare them, and the row-level CHECK constraints.
 * Timestamps and the floating-point rating are not part of the model.
 */
module Schema {
  import opened Wrappers

  /** A `uuid` primary or foreign key. */
  type Guid = nat

  /** A row of `Users`. The three credential columns are nullable; CHECK_User_AuthenticationFields
      decides which combinations are allowed. */
  datatype UserRow = UserRow(
    email: string,
    name: Option<string>,
    profilePictureId: Option<Guid>,
    passwordSalt: Option<string>,
    passwordHash: Option<string>,
    oauthProvider: Option<string>,
    seeking: Option<int>)

  /** A row of `Items`: Name, OwnerID and Category are required, Description is optional. */
  datatype ItemRow = ItemRow(name: string, description: Option<string>, ownerId: Guid, category: int)

  /** A row of `Images`; ItemID is declared NOT NULL, so every image belongs to an item. */
  datatype ImageRow = ImageRow(itemId: Guid, bucket: string, key: string, mimeType: string)

  /** A row of `Trades`. The item id lists are `jsonb` columns, not foreign keys. */
  datatype TradeRow = TradeRow(initiatorId: Guid, receiverId: Guid, offeringItemIds: seq<Guid>, seekingItemIds: seq<Guid>, status: int)

  /** CHECK_User_AuthenticationFields: a password hash and salt and no OAuth provider, or an
      OAuth provider and neither hash nor salt. (Only IS NULL tests occur, so SQL's unknown
      truth value cannot arise.) */
  predicate AuthenticationFieldsValid(u: UserRow) {
    || (u.passwordHash.Some? && u.passwordSalt.Some? && u.oauthProvider.None?)
    || (u.passwordHash.None? && u.passwordSalt.None? && u.oauthProvider.Some?)
  }

  /** CK_Trade_DifferentUsers. */
  predicate DifferentUsers(t: TradeRow) {
    t.initiatorId != t.receiverId
  }

  /** The credential a valid user row carries, as a tagged value. */
  datatype Credential = Password(hash: string, salt: string) | OAuth(provider: string)

  /** Reads the credential columns; None when the row breaks the CHECK constraint. */
  function CredentialOf(u: UserRow): (c: Option<Credential>)
    ensures c.Some? <==> AuthenticationFieldsValid(u)
  {
    if u.passwordHash.Some? && u.passwordSalt.Some? && u.oauthProvider.None? then
      Some(Password(u.passwordHash.value, u.passwordSalt.value))
    else if u.passwordHash.None? && u.passwordSalt.None? && u.oauthProvider.Some? then
      Some(OAuth(u.oauthProvider.value))
    else None
  }

  /** Writes a credential into the three nullable columns. */
  function WithCredential(u: UserRow, c: Credential): UserRow {
    match c
    case Password(h, s) => u.(passwordHash := Some(h), passwordSalt := Some(s), oauthProvider := None)
    case OAuth(p) => u.(passwordHash := None, passwordSalt := None, oauthProvider := Some(p))
  }

  /** Valid rows and credentials are the same thing: every credential written into a row passes
      the CHECK and reads back unchanged, and every row that passes the CHECK is the one its own
      credential writes. Hence a valid row is either a password row or an OAuth row, never both. */
  lemma CredentialRoundTrip(u: UserRow, c: Credential)
    ensures AuthenticationFieldsValid(WithCredential(u, c))
    ensures CredentialOf(WithCredential(u, c)) == Some(c)
    ensures AuthenticationFieldsValid(u) ==> WithCredential(u, CredentialOf(u).value) == u
  {
  }
}
