/** The gamification service: badge criteria over a user's complaints, the points a badge
    is worth, the level thresholds, the rebuilt reputation score, and the award pass that
    grants every badge a user has newly earned. */
module GamificationService {
  import opened Options
  import opened Entities
  import opened Queries

  const SUBMITTED: string := "ComplaintSubmitted"
  const RESOLVED: string := "ComplaintResolved"
  const MEDIA: string := "MediaUploaded"
  const QUICK: string := "QuickResolution"

  /** A complaint resolved within this many calendar days counts as a quick resolution. */
  const QUICK_RESOLUTION_DAYS: int := 3

  /** The calendar day a time falls on. */
  function DayNumber(t: int): int
  {
    t / SECONDS_PER_DAY
  }

  /** `EF.Functions.DateDiffDay(start, end)`: the number of day boundaries crossed. */
  function DateDiffDay(start: int, end: int): int
  {
    DayNumber(end) - DayNumber(start)
  }

  /** The four complaint filters of the badge criteria and of the score. */
  function SubmittedBy(uid: string): Complaint -> bool
  {
    (c: Complaint) => c.userId == uid
  }

  function ResolvedFor(uid: string): Complaint -> bool
  {
    (c: Complaint) => c.userId == uid && c.status == Resolved
  }

  function WithMediaBy(uid: string): Complaint -> bool
  {
    (c: Complaint) => c.userId == uid && |c.mediaFiles| > 0
  }

  function QuickFor(uid: string): Complaint -> bool
  {
    (c: Complaint) => c.userId == uid && c.status == Resolved && c.resolvedAt.Some?
         && DateDiffDay(c.createdAt, c.resolvedAt.value) <= QUICK_RESOLUTION_DAYS
  }

  /** The counts the badge criteria are decided on. */
  datatype Activity = Activity(submitted: nat, resolved: nat, withMedia: nat, quick: nat)

  /** A user's activity in the complaint table: the user's complaints, those Resolved,
      those with at least one media file, and those Resolved with a resolution time at
      most three calendar days after filing. Every resolved, media-bearing or quickly
      resolved complaint is also a submitted one, and every quick resolution is a resolution. */
  function ActivityOf(cs: seq<Complaint>, uid: string): (a: Activity)
    ensures a.submitted == |Filter(cs, SubmittedBy(uid))|
    ensures a.resolved == |Filter(cs, ResolvedFor(uid))|
    ensures a.withMedia == |Filter(cs, WithMediaBy(uid))|
    ensures a.quick == |Filter(cs, QuickFor(uid))|
    ensures a.resolved <= a.submitted && a.withMedia <= a.submitted && a.quick <= a.resolved
    ensures a.submitted <= |cs|
  {
    CountIsFilterLength(cs, SubmittedBy(uid));
    CountIsFilterLength(cs, ResolvedFor(uid));
    CountIsFilterLength(cs, WithMediaBy(uid));
    CountIsFilterLength(cs, QuickFor(uid));
    CountMonotone(cs, ResolvedFor(uid), SubmittedBy(uid));
    CountMonotone(cs, WithMediaBy(uid), SubmittedBy(uid));
    CountMonotone(cs, QuickFor(uid), ResolvedFor(uid));
    Activity(Count(cs, SubmittedBy(uid)), Count(cs, ResolvedFor(uid)),
             Count(cs, WithMediaBy(uid)), Count(cs, QuickFor(uid)))
  }

  /** The badge criteria: the activity of the badge's kind reaches the required count;
      an unknown criteria type is never met. */
  predicate Earned(b: Badge, a: Activity)
  {
    if b.criteriaType == SUBMITTED then a.submitted >= b.requiredCount
    else if b.criteriaType == RESOLVED then a.resolved >= b.requiredCount
    else if b.criteriaType == MEDIA then a.withMedia >= b.requiredCount
    else if b.criteriaType == QUICK then a.quick >= b.requiredCount
    else false
  }

  /** Componentwise order on activities. */
  predicate AtMost(a: Activity, a': Activity)
  {
    a.submitted <= a'.submitted && a.resolved <= a'.resolved && a.withMedia <= a'.withMedia && a.quick <= a'.quick
  }

  /** More activity never loses a badge's criteria. */
  lemma EarnedMonotone(b: Badge, a: Activity, a': Activity)
    requires AtMost(a, a') && Earned(b, a)
    ensures Earned(b, a')
  {
  }

  /** Reputation points granted with a badge: proportional to the requirement for the
      counting badges, 25 for a quick resolution, 10 for any other kind. */
  function BadgePoints(b: Badge): (p: int)
    ensures b.requiredCount >= 0 ==> p >= 0
    ensures b.criteriaType !in {SUBMITTED, RESOLVED, MEDIA, QUICK} ==> p == 10
  {
    if b.criteriaType == SUBMITTED then b.requiredCount * 5
    else if b.criteriaType == RESOLVED then b.requiredCount * 10
    else if b.criteriaType == MEDIA then b.requiredCount * 3
    else if b.criteriaType == QUICK then 25
    else 10
  }

  /** Position of a level in the order Bronze < Silver < Gold < Platinum < Diamond. */
  function Rank(l: UserLevel): nat
  {
    match l
    case Bronze => 0
    case Silver => 1
    case Gold => 2
    case Platinum => 3
    case Diamond => 4
  }

  /** The least score of each level above Bronze; Bronze takes every score. */
  predicate Reaches(score: int, l: UserLevel)
  {
    match l
    case Bronze => true
    case Silver => score >= 50
    case Gold => score >= 100
    case Platinum => score >= 200
    case Diamond => score >= 500
  }

  /** The level of a reputation score: the highest level whose threshold it reaches. */
  function LevelFor(score: int): (l: UserLevel)
    ensures Reaches(score, l)
    ensures forall l' :: Reaches(score, l') ==> Rank(l') <= Rank(l)
  {
    if score >= 500 then Diamond
    else if score >= 200 then Platinum
    else if score >= 100 then Gold
    else if score >= 50 then Silver
    else Bronze
  }

  /** A higher score never means a lower level. */
  lemma LevelMonotone(s: int, s': int)
    requires s <= s'
    ensures Rank(LevelFor(s)) <= Rank(LevelFor(s'))
  {
    assert Reaches(s', LevelFor(s));
  }

  /** The badge ids a user already holds. */
  function HeldIds(ubs: seq<UserBadge>, uid: string): (r: set<int>)
    ensures forall id :: id in r <==> exists i :: 0 <= i < |ubs| && ubs[i].userId == uid && ubs[i].badgeId == id
  {
    set i | 0 <= i < |ubs| && ubs[i].userId == uid :: ubs[i].badgeId
  }

  /** The test the award pass applies to each badge: not yet held, and earned. */
  function Awardable(held: set<int>, a: Activity): Badge -> bool
  {
    (b: Badge) => b.id !in held && Earned(b, a)
  }

  /** The badges of a catalogue the award pass grants, in catalogue order. */
  function NewBadges(bs: seq<Badge>, held: set<int>, a: Activity): (r: seq<Badge>)
    ensures |r| <= |bs|
  {
    Filter(bs, Awardable(held, a))
  }

  /** The award pass grants exactly the catalogue badges that are earned and not yet held. */
  lemma NewBadgesSpec(bs: seq<Badge>, held: set<int>, a: Activity)
    ensures var r := NewBadges(bs, held, a);
            && (forall i :: 0 <= i < |r| ==> r[i] in bs && r[i].id !in held && Earned(r[i], a))
            && (forall b :: b in bs && b.id !in held && Earned(b, a) ==> b in r)
  {
    var r := NewBadges(bs, held, a);
    assert forall i :: 0 <= i < |r| ==> r[i] in r;
  }

  /** Filtering a catalogue with unique ids keeps the ids unique. */
  lemma {:induction false} FilterKeepsIdsUnique(bs: seq<Badge>, p: Badge -> bool)
    requires UniqueBadgeIds(bs)
    ensures UniqueBadgeIds(Filter(bs, p))
  {
    if bs != [] {
      var init := bs[..|bs| - 1];
      var last := bs[|bs| - 1];
      assert UniqueBadgeIds(init);
      FilterKeepsIdsUnique(init, p);
      var f := Filter(init, p);
      if p(last) {
        forall i | 0 <= i < |f|
          ensures f[i].id != last.id
        {
          assert f[i] in f;
          var j :| 0 <= j < |init| && init[j] == f[i];
        }
      }
    }
  }

  /** The rows the award pass adds for the given badges. */
  function Grants(uid: string, bs: seq<Badge>, now: int): (r: seq<UserBadge>)
    ensures |r| == |bs|
    ensures forall i :: 0 <= i < |bs| ==> r[i] == UserBadge(uid, bs[i].id, now)
  {
    if bs == [] then []
    else Grants(uid, bs[..|bs| - 1], now) + [UserBadge(uid, bs[|bs| - 1].id, now)]
  }

  /** Total points of a list of badges. */
  function PointsOf(bs: seq<Badge>): int
  {
    if bs == [] then 0 else PointsOf(bs[..|bs| - 1]) + BadgePoints(bs[|bs| - 1])
  }

  /** The catalogue entry with a given id. */
  function BadgeById(catalog: seq<Badge>, id: int): (r: Option<Badge>)
    ensures r.Some? ==> r.value in catalog && r.value.id == id
    ensures r.None? ==> forall b :: b in catalog ==> b.id != id
  {
    if catalog == [] then None
    else if catalog[0].id == id then Some(catalog[0])
    else BadgeById(catalog[1..], id)
  }

  /** In a catalogue with unique ids, the lookup finds exactly the catalogue's own entry. */
  lemma BadgeByIdFinds(catalog: seq<Badge>, b: Badge)
    requires UniqueBadgeIds(catalog) && b in catalog
    ensures BadgeById(catalog, b.id) == Some(b)
  {
    var r := BadgeById(catalog, b.id);
    var i :| 0 <= i < |catalog| && catalog[i] == b;
    var j :| 0 <= j < |catalog| && catalog[j] == r.value;
  }

  /** Points of the badges a user holds, as the rebuilt score sums them through the
      badge each row refers to. */
  function EarnedPoints(ubs: seq<UserBadge>, catalog: seq<Badge>, uid: string): int
  {
    if ubs == [] then 0
    else
      var ub := ubs[|ubs| - 1];
      EarnedPoints(ubs[..|ubs| - 1], catalog, uid)
      + (if ub.userId == uid then
           match BadgeById(catalog, ub.badgeId)
           case Some(b) => BadgePoints(b)
           case None => 0
         else 0)
  }

  /** The rebuilt score counts the points of newly granted badges exactly as the award
      pass adds them to the stored score. */
  lemma {:induction false} EarnedPointsOfGrants(ubs: seq<UserBadge>, catalog: seq<Badge>, uid: string, bs: seq<Badge>, now: int)
    requires UniqueBadgeIds(catalog)
    requires forall b :: b in bs ==> b in catalog
    ensures EarnedPoints(ubs + Grants(uid, bs, now), catalog, uid) == EarnedPoints(ubs, catalog, uid) + PointsOf(bs)
  {
    if bs == [] {
      assert ubs + Grants(uid, bs, now) == ubs;
    } else {
      var init := bs[..|bs| - 1];
      var last := bs[|bs| - 1];
      var all := ubs + Grants(uid, bs, now);
      assert all == ubs + Grants(uid, init, now) + [UserBadge(uid, last.id, now)];
      assert all[..|all| - 1] == ubs + Grants(uid, init, now);
      EarnedPointsOfGrants(ubs, catalog, uid, init, now);
      BadgeByIdFinds(catalog, last);
      assert EarnedPoints(all, catalog, uid) == EarnedPoints(all[..|all| - 1], catalog, uid) + BadgePoints(last);
    }
  }

  function WarnedUser(uid: string): Warning -> bool
  {
    (w: Warning) => w.userId == uid
  }

  /** The score before the floor at zero: 5 per complaint, 20 per resolved complaint,
      3 per complaint with media, the badge points, and minus 20 per warning. */
  function RawScore(a: Activity, badgePoints: int, warnings: nat): int
  {
    a.submitted * 5 + a.resolved * 20 + a.withMedia * 3 + badgePoints - warnings * 20
  }

  /** The reputation score rebuilt from the tables; it is never negative. */
  function ReputationScore(cs: seq<Complaint>, ubs: seq<UserBadge>, catalog: seq<Badge>, ws: seq<Warning>, uid: string): (r: int)
    ensures r >= 0
    ensures var raw := RawScore(ActivityOf(cs, uid), EarnedPoints(ubs, catalog, uid), Count(ws, WarnedUser(uid)));
            r >= raw && (raw >= 0 ==> r == raw) && (raw < 0 ==> r == 0)
  {
    var raw := RawScore(ActivityOf(cs, uid), EarnedPoints(ubs, catalog, uid), Count(ws, WarnedUser(uid)));
    Max(0, raw)
  }

  /** A warning costs its user at most 20 points of rebuilt score and never adds any. */
  lemma WarningCostsAtMostTwenty(cs: seq<Complaint>, ubs: seq<UserBadge>, catalog: seq<Badge>, ws: seq<Warning>, w: Warning)
    ensures var before := ReputationScore(cs, ubs, catalog, ws, w.userId);
            var after := ReputationScore(cs, ubs, catalog, ws + [w], w.userId);
            before - 20 <= after <= before
  {
    CountAppend(ws, [w], WarnedUser(w.userId));
    assert Count([w], WarnedUser(w.userId)) == 1 by {
      assert [w][..0] == [];
    }
  }

  /** A warning issued to somebody else leaves the score as it was. */
  lemma OthersWarningsDoNotCount(cs: seq<Complaint>, ubs: seq<UserBadge>, catalog: seq<Badge>, ws: seq<Warning>, w: Warning, uid: string)
    requires w.userId != uid
    ensures ReputationScore(cs, ubs, catalog, ws + [w], uid) == ReputationScore(cs, ubs, catalog, ws, uid)
  {
    CountAppend(ws, [w], WarnedUser(uid));
    assert Count([w], WarnedUser(uid)) == 0;
  }

  /** The level refresh: a stored score of zero is replaced by the rebuilt one, and the
      level is set from the resulting score. Nothing else of the user changes. */
  function RefreshLevel(u: User, rebuilt: int): (r: User)
    ensures r.reputationScore == (if u.reputationScore == 0 then rebuilt else u.reputationScore)
    ensures r.level == LevelFor(r.reputationScore)
    ensures r.(reputationScore := u.reputationScore, level := u.level) == u
  {
    var score := if u.reputationScore == 0 then rebuilt else u.reputationScore;
    u.(reputationScore := score, level := LevelFor(score))
  }

  /** Refreshing twice against the same tables is refreshing once. */
  lemma RefreshLevelIdempotent(u: User, rebuilt: int)
    ensures RefreshLevel(RefreshLevel(u, rebuilt), rebuilt) == RefreshLevel(u, rebuilt)
  {
  }

  /** The user-badge table after an award pass for `uid`: one row per newly earned badge. */
  function AwardRows(ubs: seq<UserBadge>, catalog: seq<Badge>, uid: string, a: Activity, now: int): seq<UserBadge>
  {
    ubs + Grants(uid, NewBadges(catalog, HeldIds(ubs, uid), a), now)
  }

  /** The points an award pass adds to the stored score. */
  function AwardPoints(ubs: seq<UserBadge>, catalog: seq<Badge>, uid: string, a: Activity): int
  {
    PointsOf(NewBadges(catalog, HeldIds(ubs, uid), a))
  }

  function Credit(u: User, points: int): User
  {
    u.(reputationScore := u.reputationScore + points)
  }

  /** The whole award pass on the tables it reads and writes: for a known user, add a row
      for every catalogue badge newly earned, add its points to the stored score, then
      refresh the level against the updated tables. An unknown user changes nothing. */
  function CheckAndAward(users: map<string, User>, cs: seq<Complaint>, catalog: seq<Badge>,
                         ubs: seq<UserBadge>, ws: seq<Warning>, uid: string, now: int): (r: (map<string, User>, seq<UserBadge>))
    ensures uid !in users ==> r == (users, ubs)
    ensures r.0.Keys == users.Keys
    ensures forall k :: k in users && k != uid ==> r.0[k] == users[k]
    ensures |ubs| <= |r.1| && r.1[..|ubs|] == ubs
    ensures forall i :: |ubs| <= i < |r.1| ==> r.1[i].userId == uid && r.1[i].earnedAt == now
    ensures AwardsUnique(ubs) && UniqueBadgeIds(catalog) ==> AwardsUnique(r.1)
  {
    if uid !in users then (users, ubs)
    else
      var a := ActivityOf(cs, uid);
      var ubs' := AwardRows(ubs, catalog, uid, a, now);
      var u' := RefreshLevel(Credit(users[uid], AwardPoints(ubs, catalog, uid, a)),
                             ReputationScore(cs, ubs', catalog, ws, uid));
      assert ubs'[..|ubs|] == ubs;
      AwardKeepsUnique(ubs, catalog, uid, a, now);
      (users[uid := u'], ubs')
  }

  /** The award pass for a known user, spelled out. */
  lemma CheckAndAwardKnown(users: map<string, User>, cs: seq<Complaint>, catalog: seq<Badge>,
                           ubs: seq<UserBadge>, ws: seq<Warning>, uid: string, now: int)
    requires uid in users
    ensures var a := ActivityOf(cs, uid);
            var ubs' := AwardRows(ubs, catalog, uid, a, now);
            CheckAndAward(users, cs, catalog, ubs, ws, uid, now)
            == (users[uid := RefreshLevel(Credit(users[uid], AwardPoints(ubs, catalog, uid, a)),
                                          ReputationScore(cs, ubs', catalog, ws, uid))], ubs')
  {
  }

  /** The rows an award pass adds never clash with each other or with rows already there. */
  lemma AwardKeepsUnique(ubs: seq<UserBadge>, catalog: seq<Badge>, uid: string, a: Activity, now: int)
    ensures AwardsUnique(ubs) && UniqueBadgeIds(catalog) ==>
              AwardsUnique(ubs + Grants(uid, NewBadges(catalog, HeldIds(ubs, uid), a), now))
  {
    if AwardsUnique(ubs) && UniqueBadgeIds(catalog) {
      var held := HeldIds(ubs, uid);
      var granted := NewBadges(catalog, held, a);
      NewBadgesSpec(catalog, held, a);
      var gs := Grants(uid, granted, now);
      var all := ubs + gs;
      FilterKeepsIdsUnique(catalog, Awardable(held, a));
      forall i, j | 0 <= i < j < |all|
        ensures all[i].userId != all[j].userId || all[i].badgeId != all[j].badgeId
      {
        if j >= |ubs| && i < |ubs| {
          assert all[j].badgeId == granted[j - |ubs|].id;
          if all[i].userId == uid {
            assert all[i].badgeId in held;
          }
        }
      }
    }
  }

  /** After an award pass, every catalogue badge the user has earned is held. */
  lemma AwardCoversEarned(ubs: seq<UserBadge>, catalog: seq<Badge>, uid: string, a: Activity, now: int)
    ensures forall b :: b in catalog && Earned(b, a) ==> b.id in HeldIds(AwardRows(ubs, catalog, uid, a, now), uid)
  {
    var held := HeldIds(ubs, uid);
    var granted := NewBadges(catalog, held, a);
    NewBadgesSpec(catalog, held, a);
    var ubs' := ubs + Grants(uid, granted, now);
    forall b | b in catalog && Earned(b, a)
      ensures b.id in HeldIds(ubs', uid)
    {
      if b.id !in held {
        var k :| 0 <= k < |granted| && granted[k] == b;
        assert ubs'[|ubs| + k] == UserBadge(uid, b.id, now);
      } else {
        var i :| 0 <= i < |ubs| && ubs[i].userId == uid && ubs[i].badgeId == b.id;
        assert ubs'[i] == ubs[i];
      }
    }
  }

  /** A second award pass over the same tables finds no badge to grant. */
  lemma SecondPassGrantsNothing(ubs: seq<UserBadge>, catalog: seq<Badge>, uid: string, a: Activity, now: int)
    ensures var ubs' := AwardRows(ubs, catalog, uid, a, now);
            NewBadges(catalog, HeldIds(ubs', uid), a) == []
            && AwardRows(ubs', catalog, uid, a, now) == ubs'
            && AwardPoints(ubs', catalog, uid, a) == 0
  {
    AwardCoversEarned(ubs, catalog, uid, a, now);
    var ubs' := AwardRows(ubs, catalog, uid, a, now);
    FilterNone(catalog, Awardable(HeldIds(ubs', uid), a));
    assert ubs' + Grants(uid, [], now) == ubs';
  }

  /** A second award pass over the same tables changes nothing. */
  lemma CheckAndAwardIdempotent(users: map<string, User>, cs: seq<Complaint>, catalog: seq<Badge>,
                                ubs: seq<UserBadge>, ws: seq<Warning>, uid: string, now: int, later: int)
    ensures var r := CheckAndAward(users, cs, catalog, ubs, ws, uid, now);
            CheckAndAward(r.0, cs, catalog, r.1, ws, uid, later) == r
  {
    if uid in users {
      var a := ActivityOf(cs, uid);
      var ubs' := AwardRows(ubs, catalog, uid, a, now);
      SecondPassGrantsNothing(ubs, catalog, uid, a, now);
      var rebuilt := ReputationScore(cs, ubs', catalog, ws, uid);
      var c := Credit(users[uid], AwardPoints(ubs, catalog, uid, a));
      var u' := RefreshLevel(c, rebuilt);
      RefreshLevelIdempotent(c, rebuilt);
      assert Credit(u', 0) == u';
      assert users[uid := u'][uid := u'] == users[uid := u'];
    }
  }

  /** The stored score grows by exactly the points the rebuilt score counts for the new
      rows, unless that sum is zero and the refresh replaces it by the rebuilt score. */
  lemma AwardPointsMatchRebuild(users: map<string, User>, cs: seq<Complaint>, catalog: seq<Badge>,
                                ubs: seq<UserBadge>, ws: seq<Warning>, uid: string, now: int)
    requires uid in users && UniqueBadgeIds(catalog)
    ensures var r := CheckAndAward(users, cs, catalog, ubs, ws, uid, now);
            var gained := EarnedPoints(r.1, catalog, uid) - EarnedPoints(ubs, catalog, uid);
            users[uid].reputationScore + gained != 0 ==>
              r.0[uid].reputationScore == users[uid].reputationScore + gained
  {
    var granted := NewBadges(catalog, HeldIds(ubs, uid), ActivityOf(cs, uid));
    EarnedPointsOfGrants(ubs, catalog, uid, granted, now);
  }

  /** The badge catalogue the database is seeded with (ids in insertion order). */
  const SEED_BADGES: seq<Badge> := [
    Badge(1, "Söz Sahibi", 1, SUBMITTED),
    Badge(2, "Fark Yaratıcı", 3, SUBMITTED),
    Badge(3, "Sürekli Çaba", 10, SUBMITTED),
    Badge(4, "Değişim Habercisi", 25, SUBMITTED),
    Badge(5, "Toplum Savunucusu", 50, SUBMITTED),
    Badge(6, "İçerik Ustası", 5, MEDIA),
    Badge(7, "Hızlı Çözüm", 1, QUICK),
    Badge(8, "Başarı Hikayesi", 1, RESOLVED)
  ]

  lemma SeedBadgeIdsUnique()
    ensures UniqueBadgeIds(SEED_BADGES)
  {
  }

  /** A citizen holding no badge whose first complaint has just been filed earns the first
      badge of the seed catalogue and nothing else, worth 5 points. */
  lemma FirstComplaintEarnsFirstBadge(ubs: seq<UserBadge>, uid: string)
    requires HeldIds(ubs, uid) == {}
    ensures var granted := NewBadges(SEED_BADGES, HeldIds(ubs, uid), Activity(1, 0, 0, 0));
            granted == [SEED_BADGES[0]] && PointsOf(granted) == 5
  {
    var p := Awardable(HeldIds(ubs, uid), Activity(1, 0, 0, 0));
    var first, rest := SEED_BADGES[..1], SEED_BADGES[1..];
    assert Filter(SEED_BADGES, p) == Filter(first, p) + Filter(rest, p) by {
      assert SEED_BADGES == first + rest;
      FilterAppend(first, rest, p);
    }
    assert Filter(first, p) == [SEED_BADGES[0]] by {
      assert first[..0] == [];
      assert first[0].criteriaType == SUBMITTED && first[0].requiredCount == 1;
    }
    assert Filter(rest, p) == [] by {
      SeedTailNeedsMore(rest, Activity(1, 0, 0, 0));
      FilterNone(rest, p);
    }
    assert PointsOf([SEED_BADGES[0]]) == PointsOf([]) + BadgePoints(SEED_BADGES[0]);
  }

  /** After one filed complaint, no seed badge other than the first is within reach. */
  lemma SeedTailNeedsMore(rest: seq<Badge>, a: Activity)
    requires rest == SEED_BADGES[1..] && a == Activity(1, 0, 0, 0)
    ensures forall i :: 0 <= i < |rest| ==> !Earned(rest[i], a)
  {
    assert rest[0].requiredCount == 3 && rest[1].requiredCount == 10;
    assert rest[2].requiredCount == 25 && rest[3].requiredCount == 50;
    assert rest[4].criteriaType == MEDIA && rest[5].criteriaType == QUICK && rest[6].criteriaType == RESOLVED;
  }

  /** `UpdateUserLevelAsync`: refreshes the stored score and level of a known user. */
  method UpdateUserLevel(db: Store, uid: string)
    requires db.Valid()
    modifies db`users
    ensures db.Valid()
    ensures uid !in old(db.users) ==> db.users == old(db.users)
    ensures uid in old(db.users) ==>
              db.users == old(db.users)[uid := RefreshLevel(old(db.users)[uid],
                            ReputationScore(db.complaints, db.userBadges, db.badges, db.warnings, uid))]
  {
    if uid !in db.users {
      return;
    }
    var u := db.users[uid];
    var rebuilt := ReputationScore(db.complaints, db.userBadges, db.badges, db.warnings, uid);
    db.users := db.users[uid := RefreshLevel(u, rebuilt)];
  }

  /** One more catalogue entry adds at most that badge to the grants and its points to the total. */
  lemma ScanStep(bs: seq<Badge>, i: int, held: set<int>, a: Activity, uid: string, now: int)
    requires 0 <= i < |bs|
    ensures var before := NewBadges(bs[..i], held, a);
            var after := NewBadges(bs[..i + 1], held, a);
            if bs[i].id !in held && Earned(bs[i], a) then
              Grants(uid, after, now) == Grants(uid, before, now) + [UserBadge(uid, bs[i].id, now)]
              && PointsOf(after) == PointsOf(before) + BadgePoints(bs[i])
            else after == before
  {
    assert bs[..i + 1][..i] == bs[..i];
    var before := NewBadges(bs[..i], held, a);
    assert (before + [bs[i]])[..|before|] == before;
  }

  /** The walk over the catalogue in `CheckAndAwardBadgesAsync`: for each badge the user
      does not hold and has earned, one new row and the badge's points on the tracked score. */
  method ScanCatalogue(allBadges: seq<Badge>, held: set<int>, a: Activity, uid: string, now: int, score0: int)
    returns (added: seq<UserBadge>, score: int)
    ensures added == Grants(uid, NewBadges(allBadges, held, a), now)
    ensures score == score0 + PointsOf(NewBadges(allBadges, held, a))
  {
    score := score0;
    added := [];
    var i := 0;
    while i < |allBadges|
      invariant 0 <= i <= |allBadges|
      invariant added == Grants(uid, NewBadges(allBadges[..i], held, a), now)
      invariant score == score0 + PointsOf(NewBadges(allBadges[..i], held, a))
    {
      var badge := allBadges[i];
      ScanStep(allBadges, i, held, a, uid, now);
      if badge.id !in held {
        var earned := Earned(badge, a);
        if earned {
          added := added + [UserBadge(uid, badge.id, now)];
          score := score + BadgePoints(badge);
        }
      }
      i := i + 1;
    }
    assert allBadges[..i] == allBadges;
  }

  /** The part of `CheckAndAwardBadgesAsync` before the level refresh: for a known user,
      scans the catalogue and saves the new rows and the credited score. */
  method AwardBadges(db: Store, uid: string, now: int)
    requires db.Valid()
    modifies db`users, db`userBadges
    ensures db.Valid()
    ensures uid !in old(db.users) ==> db.users == old(db.users) && db.userBadges == old(db.userBadges)
    ensures uid in old(db.users) ==>
              var a := ActivityOf(db.complaints, uid);
              && db.userBadges == AwardRows(old(db.userBadges), db.badges, uid, a, now)
              && db.users == old(db.users)[uid := Credit(old(db.users)[uid], AwardPoints(old(db.userBadges), db.badges, uid, a))]
  {
    if uid !in db.users {
      return;
    }
    var u := db.users[uid];
    var held := HeldIds(db.userBadges, uid);
    var a := ActivityOf(db.complaints, uid);
    var added, score := ScanCatalogue(db.badges, held, a, uid, now, u.reputationScore);
    var rows := db.userBadges + added;
    var credited := Credit(u, score - u.reputationScore);
    assert rows == AwardRows(db.userBadges, db.badges, uid, a, now);
    assert credited == Credit(u, AwardPoints(db.userBadges, db.badges, uid, a));
    assert AwardsUnique(rows) by {
      AwardKeepsUnique(db.userBadges, db.badges, uid, a, now);
    }
    assert credited.id == uid;
    db.userBadges, db.users := rows, db.users[uid := credited];
  }

  /** `CheckAndAwardBadgesAsync`: the award pass followed by the level refresh. */
  method CheckAndAwardBadges(db: Store, uid: string, now: int)
    requires db.Valid()
    modifies db`users, db`userBadges
    ensures db.Valid()
    ensures (db.users, db.userBadges)
            == CheckAndAward(old(db.users), db.complaints, db.badges, old(db.userBadges), db.warnings, uid, now)
  {
    ghost var users0, rows0 := db.users, db.userBadges;
    AwardBadges(db, uid, now);
    UpdateUserLevel(db, uid);
    if uid in users0 {
      ghost var a := ActivityOf(db.complaints, uid);
      ghost var credited := Credit(users0[uid], AwardPoints(rows0, db.badges, uid, a));
      ghost var refreshed := RefreshLevel(credited, ReputationScore(db.complaints, db.userBadges, db.badges, db.warnings, uid));
      assert db.users == users0[uid := credited][uid := refreshed];
      SaveUserTwice(users0, uid, credited, refreshed);
      CheckAndAwardKnown(users0, db.complaints, db.badges, rows0, db.warnings, uid, now);
    }
  }
}
