/**
 * The buyer-profile service: at most one financing profile per user in the
 * `buyer_profile` table, read back with nullable columns mapped to defaults,
 * copied into appointments as a snapshot, summarised as trust badges, and
 * purged by the retention clean-up.
 */
module BuyerProfiles {
  import opened Wrappers
  import opened Schema
  import opened Tables

  // ----- Enumeration texts -----

  function EquityBandText(b: EquityBand): string {
    match b
    case Lt10 => "lt10"
    case B10To30 => "b10_30"
    case B30To50 => "b30_50"
    case Gt50 => "gt50"
  }

  /** Membership in `['lt10', 'b10_30', 'b30_50', 'gt50']`, giving the band a text names. */
  function ParseEquityBand(s: string): (r: Option<EquityBand>)
    ensures forall b :: r == Some(b) <==> s == EquityBandText(b)
  {
    if s == "lt10" then Some(Lt10)
    else if s == "b10_30" then Some(B10To30)
    else if s == "b30_50" then Some(B30To50)
    else if s == "gt50" then Some(Gt50)
    else None
  }

  function TimelineText(t: PurchaseTimeline): string {
    match t
    case Immediate => "immediate"
    case Lt3m => "lt3m"
    case Lt6m => "lt6m"
    case Gt6m => "gt6m"
  }

  /** Membership in `['immediate', 'lt3m', 'lt6m', 'gt6m']`. */
  function ParseTimeline(s: string): (r: Option<PurchaseTimeline>)
    ensures forall t :: r == Some(t) <==> s == TimelineText(t)
  {
    if s == "immediate" then Some(Immediate)
    else if s == "lt3m" then Some(Lt3m)
    else if s == "lt6m" then Some(Lt6m)
    else if s == "gt6m" then Some(Gt6m)
    else None
  }

  function PurposeText(p: PurchasePurpose): string {
    match p
    case Eigennutzung => "eigennutzung"
    case Kapitalanlage => "kapitalanlage"
  }

  /** Membership in `['eigennutzung', 'kapitalanlage']`. */
  function ParsePurpose(s: string): (r: Option<PurchasePurpose>)
    ensures forall p :: r == Some(p) <==> s == PurposeText(p)
  {
    if s == "eigennutzung" then Some(Eigennutzung)
    else if s == "kapitalanlage" then Some(Kapitalanlage)
    else None
  }

  // ----- The profile as the service returns it -----

  /** `BuyerProfile`: the row with its nullable columns resolved. */
  datatype BuyerProfile = BuyerProfile(
    id: int,
    userId: UserId,
    equityBand: EquityBand,
    timeline: PurchaseTimeline,
    purpose: PurchasePurpose,
    householdSize: Option<int>,
    schufaAvailable: bool,
    financingDocUrl: Option<string>,
    financingVerified: bool,
    consentTimestamp: int,
    retentionUntil: int,
    createdAt: int,
    updatedAt: int)

  /** JS `x || undefined` on a nullable number: null and 0 both become absent. */
  function TruthyNumber(x: Option<int>): (r: Option<int>)
    ensures r.Some? <==> x.Some? && x.value != 0
    ensures r.Some? ==> r == x
  {
    if x.Some? && x.value != 0 then x else None
  }

  /** JS `x || undefined` on a nullable text: null and "" both become absent. */
  function TruthyText(x: Option<string>): (r: Option<string>)
    ensures r.Some? <==> x.Some? && x.value != ""
    ensures r.Some? ==> r == x
  {
    if x.Some? && x.value != "" then x else None
  }

  /**
   * `mapToBuyerProfile`: null booleans read as false, a zero household size
   * and an empty document URL read as absent, and a null creation or update
   * stamp reads as the current instant `now`.
   */
  function MapToBuyerProfile(record: BuyerProfileRow, now: int): (r: BuyerProfile)
    ensures r.id == record.id && r.userId == record.userId
    ensures r.equityBand == record.equityBand && r.timeline == record.timeline && r.purpose == record.purpose
    ensures r.schufaAvailable <==> record.schufaAvailable == Some(true)
    ensures r.financingVerified <==> record.financingVerified == Some(true)
    ensures r.householdSize == TruthyNumber(record.householdSize)
    ensures r.financingDocUrl == TruthyText(record.financingDocUrl)
    ensures r.createdAt == record.createdAt.GetOr(now) && r.updatedAt == record.updatedAt.GetOr(now)
    ensures r.consentTimestamp == record.consentTimestamp && r.retentionUntil == record.retentionUntil
  {
    BuyerProfile(
      record.id, record.userId, record.equityBand, record.timeline, record.purpose,
      TruthyNumber(record.householdSize),
      record.schufaAvailable == Some(true),
      TruthyText(record.financingDocUrl),
      record.financingVerified == Some(true),
      record.consentTimestamp, record.retentionUntil,
      record.createdAt.GetOr(now), record.updatedAt.GetOr(now))
  }

  // ----- Looking a user's profile up -----

  /** The key of the user's profile row: the lowest of the matching keys, none when no row matches. */
  function KeyOf(m: map<int, BuyerProfileRow>, userId: UserId): (r: Option<int>)
    ensures r.Some? ==> r.value in m && m[r.value].userId == userId
    ensures r.None? <==> forall k :: k in m ==> m[k].userId != userId
  {
    var ks := set k | k in m && m[k].userId == userId;
    if ks == {} then
      assert forall k :: k in m && m[k].userId == userId ==> k in ks;
      None
    else
      var k := MinKey(ks);
      Some(k)
  }

  /** No two rows belong to the same user. */
  ghost predicate OnePerUser(m: map<int, BuyerProfileRow>) {
    forall a, b :: a in m && b in m && m[a].userId == m[b].userId ==> a == b
  }

  /** With one row per user, the lookup finds that row. */
  lemma KeyOfUnique(m: map<int, BuyerProfileRow>, userId: UserId, k: int)
    requires OnePerUser(m) && k in m && m[k].userId == userId
    ensures KeyOf(m, userId) == Some(k)
  {
    var ks := set x | x in m && m[x].userId == userId;
    assert forall x :: x in ks <==> x == k;
    assert ks == {k};
  }

  /** `getProfile`: the user's profile, or null when the user has none. */
  function Profile(m: map<int, BuyerProfileRow>, userId: UserId, now: int): (r: Option<BuyerProfile>)
    ensures r.None? <==> forall k :: k in m ==> m[k].userId != userId
    ensures r.Some? ==> r.value.userId == userId && exists k :: k in m && r.value == MapToBuyerProfile(m[k], now)
  {
    match KeyOf(m, userId)
    case None => None
    case Some(k) => Some(MapToBuyerProfile(m[k], now))
  }

  /** The profile fields an appointment keeps, stamped with the instant the snapshot is taken. */
  function SnapshotOf(p: BuyerProfile, now: int): BuyerProfileSnapshot {
    BuyerProfileSnapshot(p.equityBand, p.timeline, p.purpose, p.householdSize, p.schufaAvailable, p.financingVerified, now)
  }

  /** `createSnapshot`: null exactly when the user has no profile, otherwise the profile's copied fields. */
  function Snapshot(m: map<int, BuyerProfileRow>, userId: UserId, now: int): (r: Option<BuyerProfileSnapshot>)
    ensures r.None? <==> Profile(m, userId, now).None?
    ensures r.Some? ==>
      var p := Profile(m, userId, now).value;
      && r.value.equityBand == p.equityBand && r.value.timeline == p.timeline && r.value.purpose == p.purpose
      && r.value.householdSize == p.householdSize && r.value.schufaAvailable == p.schufaAvailable
      && r.value.financingVerified == p.financingVerified && r.value.snapshotDate == now
  {
    match Profile(m, userId, now)
    case None => None
    case Some(p) => Some(SnapshotOf(p, now))
  }

  // ----- Trust badges -----

  datatype BadgeType = FinancingBadge | EquityBadge | TimelineBadge | PurposeBadge | SchufaBadge

  /** The position of a badge kind in the fixed emission order. */
  function Rank(t: BadgeType): nat {
    match t
    case FinancingBadge => 0
    case EquityBadge => 1
    case TimelineBadge => 2
    case PurposeBadge => 3
    case SchufaBadge => 4
  }

  datatype TrustBadge = TrustBadge(kind: BadgeType, labelText: string, description: string, icon: string, color: string, value: string)

  const Green := "bg-green-100 text-green-800"
  const Blue := "bg-blue-100 text-blue-800"
  const Yellow := "bg-yellow-100 text-yellow-800"
  const Gray := "bg-gray-100 text-gray-800"
  const Purple := "bg-purple-100 text-purple-800"

  function EquityLabel(b: EquityBand): string {
    match b
    case Lt10 => "< 10%"
    case B10To30 => "10-30%"
    case B30To50 => "30-50%"
    case Gt50 => "> 50%"
  }

  function EquityColor(b: EquityBand): string {
    if b == Gt50 then Green else if b == B30To50 then Blue else if b == B10To30 then Yellow else Gray
  }

  function TimelineLabel(t: PurchaseTimeline): string {
    match t
    case Immediate => "Sofort"
    case Lt3m => "≤ 3 Monate"
    case Lt6m => "≤ 6 Monate"
    case Gt6m => "> 6 Monate"
  }

  function TimelineColor(t: PurchaseTimeline): string {
    if t == Immediate then Green else if t == Lt3m then Blue else if t == Lt6m then Yellow else Gray
  }

  function PurposeLabel(p: PurchasePurpose): string {
    match p
    case Eigennutzung => "Eigennutzung"
    case Kapitalanlage => "Kapitalanlage"
  }

  function PurposeColor(p: PurchasePurpose): string {
    if p == Eigennutzung then Blue else Purple
  }

  function EquityBadgeOf(b: EquityBand): TrustBadge {
    TrustBadge(EquityBadge, "Eigenkapital: " + EquityLabel(b), "Eigenkapital: " + EquityLabel(b), "🏦", EquityColor(b), EquityBandText(b))
  }

  function TimelineBadgeOf(t: PurchaseTimeline): TrustBadge {
    TrustBadge(TimelineBadge, "Zeitplan: " + TimelineLabel(t), "Kaufzeitplan: " + TimelineLabel(t), "⏰", TimelineColor(t), TimelineText(t))
  }

  function PurposeBadgeOf(p: PurchasePurpose): TrustBadge {
    TrustBadge(PurposeBadge, PurposeLabel(p), "Kaufzweck: " + PurposeLabel(p),
      if p == Eigennutzung then "🏠" else "📈", PurposeColor(p), PurposeText(p))
  }

  const FinancingBadgeValue := TrustBadge(FinancingBadge, "Finanzierung bestätigt", "Finanzierungsbestätigung verifiziert", "💰", Green, "verified")
  const SchufaBadgeValue := TrustBadge(SchufaBadge, "Schufa verfügbar", "Schufa-Auskunft auf Anfrage verfügbar", "📋", Green, "available")

  /** The fields `generateTrustBadges` reads, common to a profile and a snapshot. */
  datatype BadgeFacts = BadgeFacts(
    financingVerified: bool,
    equityBand: EquityBand,
    timeline: PurchaseTimeline,
    purpose: PurchasePurpose,
    schufaAvailable: bool)

  function ProfileFacts(p: BuyerProfile): BadgeFacts {
    BadgeFacts(p.financingVerified, p.equityBand, p.timeline, p.purpose, p.schufaAvailable)
  }

  function SnapshotFacts(s: BuyerProfileSnapshot): BadgeFacts {
    BadgeFacts(s.financingVerified, s.equityBand, s.timeline, s.purpose, s.schufaAvailable)
  }

  /** `generateTrustBadges`: financing when verified, then equity, timeline and purpose, then Schufa when available. */
  function TrustBadges(f: BadgeFacts): seq<TrustBadge> {
    (if f.financingVerified then [FinancingBadgeValue] else [])
    + [EquityBadgeOf(f.equityBand), TimelineBadgeOf(f.timeline), PurposeBadgeOf(f.purpose)]
    + (if f.schufaAvailable then [SchufaBadgeValue] else [])
  }

  predicate HasKind(r: seq<TrustBadge>, t: BadgeType) {
    exists i :: 0 <= i < |r| && r[i].kind == t
  }

  function Kinds(r: seq<TrustBadge>): (ks: seq<BadgeType>)
    ensures |ks| == |r| && forall i :: 0 <= i < |r| ==> ks[i] == r[i].kind
  {
    seq(|r|, i requires 0 <= i < |r| => r[i].kind)
  }

  /** The kinds `generateTrustBadges` emits, in emission order. */
  lemma BadgeKinds(f: BadgeFacts)
    ensures Kinds(TrustBadges(f)) ==
      (if f.financingVerified then [FinancingBadge] else []) + [EquityBadge, TimelineBadge, PurposeBadge] + (if f.schufaAvailable then [SchufaBadge] else [])
  {
  }

  /**
   * Three to five badges, strictly in the fixed kind order (so each kind at
   * most once); equity, timeline and purpose always, financing exactly when
   * verified and Schufa exactly when available.
   */
  lemma TrustBadgesShape(f: BadgeFacts)
    ensures var r := TrustBadges(f);
      && |r| == 3 + (if f.financingVerified then 1 else 0) + (if f.schufaAvailable then 1 else 0)
      && (forall i, j :: 0 <= i < j < |r| ==> Rank(r[i].kind) < Rank(r[j].kind))
      && HasKind(r, EquityBadge) && HasKind(r, TimelineBadge) && HasKind(r, PurposeBadge)
      && (HasKind(r, FinancingBadge) <==> f.financingVerified)
      && (HasKind(r, SchufaBadge) <==> f.schufaAvailable)
  {
    var r := TrustBadges(f);
    BadgeKinds(f);
    KindListShape(Kinds(r), f.financingVerified, f.schufaAvailable);
    assert forall t :: HasKind(r, t) <==> t in Kinds(r);
  }

  lemma KindListShape(ks: seq<BadgeType>, fin: bool, schufa: bool)
    requires ks == (if fin then [FinancingBadge] else []) + [EquityBadge, TimelineBadge, PurposeBadge] + (if schufa then [SchufaBadge] else [])
    ensures |ks| == 3 + (if fin then 1 else 0) + (if schufa then 1 else 0)
    ensures forall i, j :: 0 <= i < j < |ks| ==> Rank(ks[i]) < Rank(ks[j])
    ensures EquityBadge in ks && TimelineBadge in ks && PurposeBadge in ks
    ensures (FinancingBadge in ks <==> fin) && (SchufaBadge in ks <==> schufa)
  {
    var o := if fin then 1 else 0;
    assert forall i :: 0 <= i < |ks| ==> Rank(ks[i]) == i + 1 - o;
  }

  /** A complete profile, verified and with Schufa, gets all five badges in order. */
  lemma FullProfileFiveBadges(f: BadgeFacts)
    requires f.financingVerified && f.schufaAvailable
    ensures |TrustBadges(f)| == 5
    ensures forall i :: 0 <= i < 5 ==> Rank(TrustBadges(f)[i].kind) == i
  {
  }

  /**
   * The equity, timeline and purpose badges carry the enum text as their
   * value, which parses back to the profile's own value, and their colour
   * follows the fixed maps: equity gt50 green, b30_50 blue, b10_30 yellow,
   * otherwise gray; timeline immediate green, lt3m blue, lt6m yellow,
   * otherwise gray; purpose eigennutzung blue, kapitalanlage purple.
   */
  lemma BadgeValuesAndColours(f: BadgeFacts, x: TrustBadge)
    requires x in TrustBadges(f)
    ensures x.kind == EquityBadge ==> ParseEquityBand(x.value) == Some(f.equityBand)
    ensures x.kind == TimelineBadge ==> ParseTimeline(x.value) == Some(f.timeline)
    ensures x.kind == PurposeBadge ==> ParsePurpose(x.value) == Some(f.purpose)
    ensures x.kind == EquityBadge ==>
      (x.color == Green <==> f.equityBand == Gt50) && (x.color == Blue <==> f.equityBand == B30To50) &&
      (x.color == Yellow <==> f.equityBand == B10To30) && (x.color == Gray <==> f.equityBand == Lt10)
    ensures x.kind == TimelineBadge ==>
      (x.color == Green <==> f.timeline == Immediate) && (x.color == Blue <==> f.timeline == Lt3m) &&
      (x.color == Yellow <==> f.timeline == Lt6m) && (x.color == Gray <==> f.timeline == Gt6m)
    ensures x.kind == PurposeBadge ==>
      (x.color == Blue <==> f.purpose == Eigennutzung) && (x.color == Purple <==> f.purpose == Kapitalanlage)
    ensures x.kind == FinancingBadge || x.kind == SchufaBadge ==> x.color == Green
  {
  }

  /** A snapshot earns the same badges as the profile it was taken from. */
  lemma SnapshotKeepsBadges(m: map<int, BuyerProfileRow>, userId: UserId, now: int)
    requires Snapshot(m, userId, now).Some?
    ensures TrustBadges(SnapshotFacts(Snapshot(m, userId, now).value)) == TrustBadges(ProfileFacts(Profile(m, userId, now).value))
  {
  }

  // ----- Writing a profile -----

  /** The validated form data; `financingDocUrl` is the stored document's URL when a file came with it. */
  datatype ProfileInput = ProfileInput(
    equityBand: EquityBand,
    timeline: PurchaseTimeline,
    purpose: PurchasePurpose,
    householdSize: Option<int>,
    schufaAvailable: bool,
    financingDocUrl: Option<string>)

  /**
   * The row `upsertProfile` leaves: the input's fields, `financingVerified`
   * false, consent and update stamped `now`. An absent household size or
   * document URL is an undefined column, which an update leaves as it was and
   * an insert stores as null.
   */
  function Written(prior: Option<BuyerProfileRow>, id: int, userId: UserId, data: ProfileInput, now: int, retentionUntil: int): BuyerProfileRow {
    BuyerProfileRow(
      id, userId, data.equityBand, data.timeline, data.purpose,
      if data.householdSize.Some? || prior.None? then data.householdSize else prior.value.householdSize,
      Some(data.schufaAvailable),
      if data.financingDocUrl.Some? || prior.None? then data.financingDocUrl else prior.value.financingDocUrl,
      Some(false),
      now, retentionUntil,
      if prior.Some? then prior.value.createdAt else Some(now),
      Some(now))
  }

  /** The table after `upsertProfile`: the user's row rewritten in place, or a new row under the next serial key. */
  function Upserted(m: map<int, BuyerProfileRow>, nextId: int, userId: UserId, data: ProfileInput, now: int, retentionUntil: int): map<int, BuyerProfileRow> {
    match KeyOf(m, userId)
    case Some(k) => m[k := Written(Some(m[k]), k, userId, data, now, retentionUntil)]
    case None => m[nextId := Written(None, nextId, userId, data, now, retentionUntil)]
  }

  /** Every key lies below the next serial value, and each row is stored under its own id. */
  ghost predicate KeysBelow(m: map<int, BuyerProfileRow>, nextId: int) {
    forall k :: k in m ==> 0 < k < nextId && m[k].id == k
  }

  /**
   * Upserting keeps one row per user and adds a row only for a user who had
   * none; afterwards the user's profile reads back the submitted enums and
   * Schufa flag, is unverified, and carries the new retention date.
   */
  lemma {:induction false} UpsertOnePerUser(m: map<int, BuyerProfileRow>, nextId: int, userId: UserId, data: ProfileInput, now: int, retentionUntil: int)
    requires OnePerUser(m) && KeysBelow(m, nextId) && nextId > 0
    ensures var m' := Upserted(m, nextId, userId, data, now, retentionUntil);
      && OnePerUser(m')
      && KeysBelow(m', nextId + 1)
      && (m'.Keys == m.Keys <==> KeyOf(m, userId).Some?)
      && Profile(m', userId, now).Some?
      && var p := Profile(m', userId, now).value;
      && p.equityBand == data.equityBand && p.timeline == data.timeline && p.purpose == data.purpose
      && p.schufaAvailable == data.schufaAvailable && !p.financingVerified
      && p.retentionUntil == retentionUntil && p.consentTimestamp == now
  {
    var m' := Upserted(m, nextId, userId, data, now, retentionUntil);
    match KeyOf(m, userId)
    case Some(k) =>
      assert m'.Keys == m.Keys;
      KeyOfUnique(m', userId, k);
    case None =>
      assert nextId !in m;
      assert m'.Keys == m.Keys + {nextId};
      assert m'.Keys != m.Keys;
      KeyOfUnique(m', userId, nextId);
  }

  /** Upserting one user's profile leaves every other user's profile as it was. */
  lemma UpsertLeavesOthers(m: map<int, BuyerProfileRow>, nextId: int, userId: UserId, data: ProfileInput, now: int, retentionUntil: int, other: UserId)
    requires OnePerUser(m) && KeysBelow(m, nextId) && nextId > 0 && other != userId
    ensures Profile(Upserted(m, nextId, userId, data, now, retentionUntil), other, now) == Profile(m, other, now)
  {
    var m' := Upserted(m, nextId, userId, data, now, retentionUntil);
    UpsertRowsOfOthers(m, nextId, userId, data, now, retentionUntil);
    match KeyOf(m, other)
    case Some(k) =>
      KeyOfUnique(m', other, k);
    case None =>
  }

  /** The rows of other users survive an upsert unchanged, and no other user gains a row. */
  lemma UpsertRowsOfOthers(m: map<int, BuyerProfileRow>, nextId: int, userId: UserId, data: ProfileInput, now: int, retentionUntil: int)
    requires OnePerUser(m) && KeysBelow(m, nextId) && nextId > 0
    ensures var m' := Upserted(m, nextId, userId, data, now, retentionUntil);
      && OnePerUser(m')
      && (forall k :: k in m && m[k].userId != userId ==> k in m' && m'[k] == m[k])
      && (forall k :: k in m' && m'[k].userId != userId ==> k in m && m'[k] == m[k])
  {
    UpsertOnePerUser(m, nextId, userId, data, now, retentionUntil);
  }

  /** A second upsert replaces the first: the profile shows only the latest form's enums. */
  lemma UpsertTwiceKeepsOneRow(m: map<int, BuyerProfileRow>, nextId: int, userId: UserId, d1: ProfileInput, d2: ProfileInput, t1: int, t2: int, ret1: int, ret2: int)
    requires OnePerUser(m) && KeysBelow(m, nextId) && nextId > 0
    ensures var m1 := Upserted(m, nextId, userId, d1, t1, ret1);
      var m2 := Upserted(m1, nextId + 1, userId, d2, t2, ret2);
      && m2.Keys == m1.Keys
      && Profile(m2, userId, t2).Some?
      && Profile(m2, userId, t2).value.equityBand == d2.equityBand
  {
    var m1 := Upserted(m, nextId, userId, d1, t1, ret1);
    UpsertOnePerUser(m, nextId, userId, d1, t1, ret1);
    UpsertOnePerUser(m1, nextId + 1, userId, d2, t2, ret2);
  }

  // ----- Retention clean-up -----

  /** The keys `cleanupExpiredProfiles` deletes: rows whose retention instant equals `now`. */
  function ExpiredKeys(m: map<int, BuyerProfileRow>, now: int): set<int> {
    set k | k in m && m[k].retentionUntil == now
  }

  function Unexpired(m: map<int, BuyerProfileRow>, now: int): (r: map<int, BuyerProfileRow>)
    ensures forall k :: k in r <==> k in m && m[k].retentionUntil != now
    ensures forall k :: k in r ==> r[k] == m[k]
  {
    map k | k in m && m[k].retentionUntil != now :: m[k]
  }

  /** The deleted and the kept rows partition the table, so the count returned is the number of rows removed. */
  lemma CleanupCount(m: map<int, BuyerProfileRow>, now: int)
    ensures |Unexpired(m, now).Keys| + |ExpiredKeys(m, now)| == |m.Keys|
    ensures OnePerUser(m) ==> OnePerUser(Unexpired(m, now))
  {
    var kept := Unexpired(m, now).Keys;
    var gone := ExpiredKeys(m, now);
    assert m.Keys == kept + gone;
    assert kept * gone == {};
  }

  /** The equality test keeps a profile whose retention ran out before `now`: it is never deleted later either. */
  lemma PastRetentionSurvives(m: map<int, BuyerProfileRow>, now: int, k: int)
    requires k in m && m[k].retentionUntil < now
    ensures k in Unexpired(m, now)
    ensures forall later :: later > now ==> k in Unexpired(Unexpired(m, now), later)
  {
  }

  // ----- The service -----

  class BuyerProfileService {
    /** The `buyer_profile` table by primary key. */
    var profiles: map<int, BuyerProfileRow>
    /** The next value of the serial `id` column. */
    var nextId: int

    ghost predicate Valid()
      reads this
    {
      nextId > 0 && KeysBelow(profiles, nextId) && OnePerUser(profiles)
    }

    constructor()
      ensures Valid() && profiles == map[] && nextId == 1
    {
      profiles := map[];
      nextId := 1;
    }

    /**
     * `upsertProfile`: rewrites the user's row when there is one and inserts
     * one otherwise, with `financingVerified` reset to false either way, and
     * returns the stored row as a profile.
     */
    method UpsertProfile(userId: UserId, data: ProfileInput, now: int, retentionUntil: int) returns (p: BuyerProfile)
      requires Valid()
      modifies this
      ensures Valid()
      ensures profiles == Upserted(old(profiles), old(nextId), userId, data, now, retentionUntil)
      ensures Profile(profiles, userId, now) == Some(p)
      ensures !p.financingVerified && p.userId == userId
    {
      UpsertOnePerUser(profiles, nextId, userId, data, now, retentionUntil);
      var key := KeyOf(profiles, userId);
      var row: BuyerProfileRow;
      if key.Some? {
        row := Written(Some(profiles[key.value]), key.value, userId, data, now, retentionUntil);
        profiles := profiles[key.value := row];
        KeyOfUnique(profiles, userId, key.value);
      } else {
        row := Written(None, nextId, userId, data, now, retentionUntil);
        profiles := profiles[nextId := row];
        KeyOfUnique(profiles, userId, nextId);
      }
      nextId := nextId + 1;
      p := MapToBuyerProfile(row, now);
    }

    /** `getProfile`: the user's profile, or none. */
    method GetProfile(userId: UserId, now: int) returns (r: Option<BuyerProfile>)
      ensures r == Profile(profiles, userId, now)
      ensures r.None? <==> forall k :: k in profiles ==> profiles[k].userId != userId
      ensures r.Some? ==> r.value.userId == userId && exists k :: k in profiles && r.value == MapToBuyerProfile(profiles[k], now)
    {
      r := Profile(profiles, userId, now);
    }

    /** `createSnapshot`: null when the user has no profile, otherwise the copied fields stamped `now`. */
    method CreateSnapshot(userId: UserId, now: int) returns (r: Option<BuyerProfileSnapshot>)
      ensures r == Snapshot(profiles, userId, now)
      ensures r.None? <==> forall k :: k in profiles ==> profiles[k].userId != userId
    {
      var profile := GetProfile(userId, now);
      if profile.None? {
        return None;
      }
      r := Some(SnapshotOf(profile.value, now));
    }

    /** `cleanupExpiredProfiles`: deletes the rows whose retention instant equals `now` and counts them. */
    method CleanupExpiredProfiles(now: int) returns (count: int)
      requires Valid()
      modifies this
      ensures Valid()
      ensures profiles == Unexpired(old(profiles), now) && nextId == old(nextId)
      ensures count == |ExpiredKeys(old(profiles), now)| && count == |old(profiles).Keys| - |profiles.Keys|
    {
      CleanupCount(profiles, now);
      count := |ExpiredKeys(profiles, now)|;
      profiles := Unexpired(profiles, now);
    }
  }
}
