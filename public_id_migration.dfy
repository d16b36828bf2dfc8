// Migration 0006 (web/migrations/0006_alter_reservation_public_id.py): gives
// every reservation without a public reservation number one of the form
// "MBL-" followed by eight upper-case hex digits taken from a random UUID, then
// makes the column unique with at most 12 characters.

module PublicIdMigration {
  import opened Models
  import opened Text

  const PUBLIC_ID_PREFIX := "MBL-"
  const PUBLIC_ID_MAX_LENGTH := 12

  predicate IsLowerHexDigit(c: char) {
    ('0' <= c <= '9') || ('a' <= c <= 'f')
  }

  predicate IsUpperHexDigit(c: char) {
    ('0' <= c <= '9') || ('A' <= c <= 'F')
  }

  /** `uuid.uuid4().hex`: 32 lower-case hex digits. */
  predicate IsUuidHex(h: string) {
    |h| == 32 && forall i :: 0 <= i < |h| ==> IsLowerHexDigit(h[i])
  }

  /** The shape of a generated reservation number. */
  predicate IsPublicId(s: string) {
    && |s| == 12
    && s[..4] == PUBLIC_ID_PREFIX
    && forall i :: 4 <= i < 12 ==> IsUpperHexDigit(s[i])
  }

  /** `"MBL-" + hex[:8].upper()`. */
  function PublicIdFor(hex: string): (id: string)
    requires IsUuidHex(hex)
    ensures IsPublicId(id) && |id| <= PUBLIC_ID_MAX_LENGTH
    ensures id[4..] == Upper(hex[..8])
  {
    var id := PUBLIC_ID_PREFIX + Upper(hex[..8]);
    assert id[..4] == PUBLIC_ID_PREFIX;
    id
  }

  /** Two hex strings agree on their first eight digits. */
  predicate SamePrefix(a: string, b: string) {
    |a| >= 8 && |b| >= 8 && a[..8] == b[..8]
  }

  /** Two UUIDs give the same reservation number exactly when their first
      eight hex digits agree. */
  lemma PublicIdForInjectiveOnPrefix(a: string, b: string)
    requires IsUuidHex(a) && IsUuidHex(b)
    ensures PublicIdFor(a) == PublicIdFor(b) <==> SamePrefix(a, b)
  {
    if PublicIdFor(a) == PublicIdFor(b) {
      assert Upper(a[..8]) == PublicIdFor(a)[4..];
      forall i | 0 <= i < 8 ensures a[i] == b[i] {
        assert Upper(a[..8])[i] == Upper(b[..8])[i];
      }
      assert a[..8] == b[..8];
    }
  }

  /** The table after the backfill: rows without a number get the one made from
      their UUID; every other row, and every other column, is as it was. */
  function Backfilled(rows: seq<Reservation>, hexes: seq<string>): (out: seq<Reservation>)
    requires |hexes| == |rows| && forall k :: 0 <= k < |hexes| ==> IsUuidHex(hexes[k])
    ensures |out| == |rows|
    ensures forall k :: 0 <= k < |rows| ==> out[k].publicId.Some?
    ensures forall k :: 0 <= k < |rows| && rows[k].publicId.Some? ==> out[k] == rows[k]
    ensures forall k :: 0 <= k < |rows| && rows[k].publicId.None? ==>
              && IsPublicId(out[k].publicId.value)
              && out[k] == rows[k].(publicId := out[k].publicId)
  {
    seq(|rows|, k requires 0 <= k < |rows| =>
      if rows[k].publicId.None? then rows[k].(publicId := Some(PublicIdFor(hexes[k]))) else rows[k])
  }

  /** `generate_public_ids`: the loop over the reservations whose `public_id` is
      null, saving only that column. The UUID drawn for row `k` is `hexes[k]`. */
  method GeneratePublicIds(db: Database, hexes: seq<string>)
    modifies db
    requires |hexes| == |db.reservations| && forall k :: 0 <= k < |hexes| ==> IsUuidHex(hexes[k])
    ensures db.reservations == Backfilled(old(db.reservations), hexes)
    ensures db.customers == old(db.customers) && db.roomTypes == old(db.roomTypes) && db.rooms == old(db.rooms)
  {
    ghost var target := Backfilled(db.reservations, hexes);
    for k := 0 to |db.reservations|
      invariant |db.reservations| == |target|
      invariant forall j :: 0 <= j < k ==> db.reservations[j] == target[j]
      invariant forall j :: k <= j < |db.reservations| ==> db.reservations[j] == old(db.reservations)[j]
      invariant db.customers == old(db.customers) && db.roomTypes == old(db.roomTypes) && db.rooms == old(db.rooms)
    {
      var r := db.reservations[k];
      if r.publicId.None? {
        db.reservations := db.reservations[k := r.(publicId := Some(PublicIdFor(hexes[k])))];
      }
    }
  }

  /** What `AlterField` makes the database check: a number on every row and no
      two rows sharing one. (SQLite does not enforce the 12-character limit.) */
  predicate PublicIdsValid(rows: seq<Reservation>) {
    && (forall k :: 0 <= k < |rows| ==> rows[k].publicId.Some?)
    && (forall i, j :: 0 <= i < j < |rows| ==> rows[i].publicId != rows[j].publicId)
  }

  /** The whole of migration 0006. The backfill does not look for collisions;
      when two rows end up with the same number, adding the constraint fails and the migration's transaction leaves
      the table as it was. */
  method ApplyPublicIdMigration(db: Database, hexes: seq<string>) returns (applied: bool)
    modifies db
    requires |hexes| == |db.reservations| && forall k :: 0 <= k < |hexes| ==> IsUuidHex(hexes[k])
    ensures applied <==> PublicIdsValid(Backfilled(old(db.reservations), hexes))
    ensures applied ==> db.reservations == Backfilled(old(db.reservations), hexes)
    ensures !applied ==> db.reservations == old(db.reservations)
    ensures db.customers == old(db.customers) && db.roomTypes == old(db.roomTypes) && db.rooms == old(db.rooms)
  {
    var before := db.reservations;
    GeneratePublicIds(db, hexes);
    applied := PublicIdsValid(db.reservations);
    if !applied {
      db.reservations := before;
    }
  }

  /** The migration goes through when the existing numbers are unique, the new
      ones come from UUIDs whose first eight digits differ, and no existing
      number has the generated shape. */
  lemma BackfillKeepsNumbersUnique(rows: seq<Reservation>, hexes: seq<string>)
    requires |hexes| == |rows| && forall k :: 0 <= k < |hexes| ==> IsUuidHex(hexes[k])
    requires forall k :: 0 <= k < |rows| && rows[k].publicId.Some? ==>
               !IsPublicId(rows[k].publicId.value)
    requires forall i, j :: 0 <= i < j < |rows| && rows[i].publicId.Some? ==> rows[i].publicId != rows[j].publicId
    requires forall i, j :: 0 <= i < j < |rows| && rows[i].publicId.None? && rows[j].publicId.None? ==>
               !SamePrefix(hexes[i], hexes[j])
    ensures PublicIdsValid(Backfilled(rows, hexes))
  {
    var out := Backfilled(rows, hexes);
    forall i, j | 0 <= i < j < |rows| ensures out[i].publicId != out[j].publicId {
      if rows[i].publicId.None? && rows[j].publicId.None? {
        PublicIdForInjectiveOnPrefix(hexes[i], hexes[j]);
      }
    }
  }

  /** Two reservations without a number whose UUIDs share their first eight
      digits get the same number, and the migration is not applied. */
  lemma CollidingUuidsAbortTheMigration(rows: seq<Reservation>, hexes: seq<string>, i: nat, j: nat)
    requires |hexes| == |rows| && forall k :: 0 <= k < |hexes| ==> IsUuidHex(hexes[k])
    requires i < j < |rows| && rows[i].publicId.None? && rows[j].publicId.None?
    requires SamePrefix(hexes[i], hexes[j])
    ensures Backfilled(rows, hexes)[i].publicId == Backfilled(rows, hexes)[j].publicId
    ensures !PublicIdsValid(Backfilled(rows, hexes))
  {
    PublicIdForInjectiveOnPrefix(hexes[i], hexes[j]);
  }
}
