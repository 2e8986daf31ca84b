/**
  The profile row kept on the server: the record each local change uploads, and the
  field-by-field rule by which a fetched row overwrites the local profile at start-up.
  The network calls themselves are not modelled; a fetch is given as its result.
 */
module Sync {
  import opened Wrappers
  import opened Progression

  /** A field of a fetched JSON row: missing, `null`, or a value. */
  datatype JsValue<T> = Undefined | Null | Defined(value: T)

  /** The fields of a `profiles` row that the merge reads. */
  datatype RemoteRecord = RemoteRecord(
    coins: JsValue<int>,
    ownedSkins: JsValue<seq<string>>,
    equippedSkin: JsValue<string>,
    lastDailyAt: JsValue<string>,
    currentWorld: JsValue<int>,
    currentLevel: JsValue<int>,
    worldsCompleted: JsValue<int>)

  /** The query's outcome: an error, no row for this client, or the row. */
  datatype FetchResult = FetchFailed | NoRow | Row(record: RemoteRecord)

  /** JavaScript truthiness of a text field: a value that is not the empty string. */
  predicate Truthy(v: JsValue<string>) {
    v.Defined? && v.value != ""
  }

  /** The record `syncToSupabase` uploads: every local field, `null` for an absent one. */
  function Snapshot(p: Profile): (r: RemoteRecord)
    ensures r.coins.Defined? && r.ownedSkins.Defined?
    ensures r.currentWorld.Defined? && r.currentLevel.Defined? && r.worldsCompleted.Defined?
    ensures r.equippedSkin.Defined? <==> p.equippedSkin.Some?
    ensures r.lastDailyAt.Defined? <==> p.lastDailyAt.Some?
  {
    RemoteRecord(
      Defined(p.coins),
      Defined(p.ownedSkins),
      if p.equippedSkin.Some? then Defined(p.equippedSkin.value) else Null,
      if p.lastDailyAt.Some? then Defined(p.lastDailyAt.value) else Null,
      Defined(p.currentWorld),
      Defined(p.currentLevel),
      Defined(p.worldsCompleted))
  }

  /** A number field written only when present. */
  function IfDefined(v: JsValue<int>, current: int): int {
    if v.Defined? then v.value else current
  }

  /** A text field written only when truthy. */
  function IfTruthy(v: JsValue<string>, current: Option<string>): Option<string> {
    if Truthy(v) then Some(v.value) else current
  }

  /** The writes `loadFromSupabase` makes from a row, in order. Coins come first, and a
      missing or `null` coin count throws before anything is written. Owned skins fall back to
      `[]`. The equipped skin and the last claim are written only when truthy. Each progress
      field is skipped when missing, but a `null` one throws and the fields after it are not
      written. */
  function MergeRecord(p: Profile, d: RemoteRecord): (r: Profile)
    ensures !d.coins.Defined? ==> r == p
    ensures d.coins.Defined? ==>
      && r.coins == d.coins.value
      && r.ownedSkins == (if d.ownedSkins.Defined? then d.ownedSkins.value else [])
      && r.equippedSkin == IfTruthy(d.equippedSkin, p.equippedSkin)
      && r.lastDailyAt == IfTruthy(d.lastDailyAt, p.lastDailyAt)
    ensures d.coins.Defined? && !d.currentWorld.Null? ==>
      r.currentWorld == IfDefined(d.currentWorld, p.currentWorld)
    ensures d.coins.Defined? && !d.currentWorld.Null? && !d.currentLevel.Null? ==>
      && r.currentLevel == IfDefined(d.currentLevel, p.currentLevel)
      && r.worldsCompleted == IfDefined(d.worldsCompleted, p.worldsCompleted)
    ensures d.currentWorld.Null? ==> GetWorldProgress(r) == GetWorldProgress(p)
    ensures d.currentLevel.Null? ==> r.currentLevel == p.currentLevel && r.worldsCompleted == p.worldsCompleted
  {
    if !d.coins.Defined? then p
    else
      var skins := if d.ownedSkins.Defined? then d.ownedSkins.value else [];
      var base := p.(coins := d.coins.value, ownedSkins := skins,
                     equippedSkin := IfTruthy(d.equippedSkin, p.equippedSkin),
                     lastDailyAt := IfTruthy(d.lastDailyAt, p.lastDailyAt));
      if d.currentWorld.Null? then base
      else
        var withWorld := base.(currentWorld := IfDefined(d.currentWorld, base.currentWorld));
        if d.currentLevel.Null? then withWorld
        else
          var withLevel := withWorld.(currentLevel := IfDefined(d.currentLevel, withWorld.currentLevel));
          if d.worldsCompleted.Null? then withLevel
          else withLevel.(worldsCompleted := IfDefined(d.worldsCompleted, withLevel.worldsCompleted))
  }

  /** `loadFromSupabase`: a failed query or a missing row leaves the profile as it is. */
  function Merge(p: Profile, f: FetchResult): (r: Profile)
    ensures !f.Row? ==> r == p
  {
    match f
    case Row(d) => MergeRecord(p, d)
    case _ => p
  }

  /** The device that uploaded a row gets its own profile back from it. */
  lemma SameDeviceRoundTrip(p: Profile)
    ensures Merge(p, Row(Snapshot(p))) == p
  {
  }

  /** The text field the fetching device ends up with equals the uploader's exactly when the
      uploader's field was non-empty text or the two already agreed. */
  predicate Carried(uploaded: Option<string>, local: Option<string>) {
    (uploaded.Some? && uploaded.value != "") || uploaded == local
  }

  /** Another device adopts the uploaded profile exactly when the equipped skin and the last
      claim, which are skipped when absent or empty, already agreed there. */
  lemma OtherDeviceAdopts(p: Profile, q: Profile)
    ensures Merge(q, Row(Snapshot(p))) == p <==>
      Carried(p.equippedSkin, q.equippedSkin) && Carried(p.lastDailyAt, q.lastDailyAt)
  {
    var r := Merge(q, Row(Snapshot(p)));
    if r == p {
      assert r.equippedSkin == p.equippedSkin && r.lastDailyAt == p.lastDailyAt;
    }
  }

  /** Fetching the same row twice is the same as fetching it once. */
  lemma MergeIdempotent(p: Profile, f: FetchResult)
    ensures Merge(Merge(p, f), f) == Merge(p, f)
  {
  }

  /** A `null` progress field stops the merge there: the fields after it keep their local
      values even when the row holds numbers for them. */
  lemma NullStopsProgress(p: Profile, d: RemoteRecord)
    requires d.coins.Defined? && d.currentWorld.Null?
    ensures Merge(p, Row(d)).coins == d.coins.value
    ensures Merge(p, Row(d)).currentLevel == p.currentLevel
    ensures Merge(p, Row(d)).worldsCompleted == p.worldsCompleted
  {
  }

  /** The merge does not check ownership: a device with an equipped skin that fetches a row
      uploaded with no skins and none equipped keeps the skin equipped without owning it. */
  lemma MergeCanBreakConsistency()
    ensures var q := DefaultProfile.(ownedSkins := ["cat"], equippedSkin := Some("cat"));
      && Consistent(DefaultProfile) && Consistent(q)
      && !Consistent(Merge(q, Row(Snapshot(DefaultProfile))))
  {
  }

  /** A row whose equipped skin is owned and whose coins are not negative yields a consistent
      profile when the fetching device had nothing equipped. */
  lemma MergeKeepsConsistent(p: Profile, d: RemoteRecord)
    requires p.equippedSkin.None? && Consistent(p)
    requires d.coins.Defined? ==> d.coins.value >= 0
    requires Truthy(d.equippedSkin) ==> d.ownedSkins.Defined? && d.equippedSkin.value in d.ownedSkins.value
    ensures Consistent(Merge(p, Row(d)))
  {
  }
}
