/** The leaderboard view: the ranked users, each row with its rank badge,
    its place class, at most three badge icons and the overflow count. */
module Leaderboard {
  import opened Records
  import opened Seqs
  import opened Storage
  import opened Gamification

  /** `badgeIds.includes(b.id)`. */
  predicate Held(ids: seq<string>, b: BadgeDef) {
    b.id in ids
  }

  /** `getUserBadges`: the catalog entries the user holds, in catalog order. */
  function UserBadges(ids: seq<string>): seq<BadgeDef> {
    Filter(BADGES, (b: BadgeDef) => Held(ids, b))
  }

  lemma BadgesDistinct()
    ensures Distinct(BADGES)
  {
    assert BADGES[0].id[0] == 'f' && BADGES[1].id[0] == 'p' && BADGES[2].id[0] == 'm' && BADGES[3].id[0] == 'c';
  }

  /** The user's badges are exactly the catalog entries whose id the user
      holds, in catalog order and each at most once; unknown ids show
      nothing. */
  lemma UserBadgesExactly(ids: seq<string>)
    ensures forall b :: b in UserBadges(ids) <==> b in BADGES && b.id in ids
    ensures IsSubseq(UserBadges(ids), BADGES)
    ensures Distinct(UserBadges(ids))
    ensures |UserBadges(ids)| <= |BADGES|
  {
    var held := (b: BadgeDef) => Held(ids, b);
    FilterMembers(BADGES, held);
    FilterSubseq(BADGES, held);
    BadgesDistinct();
    FilterDistinct(BADGES, held);
  }

  /** `getUserBadges(user.badges).slice(0, 3)`. */
  function VisibleBadges(ids: seq<string>): (r: seq<BadgeDef>)
    ensures |r| <= 3 && |r| <= |UserBadges(ids)|
    ensures r == UserBadges(ids)[..|r|]
    ensures |r| == if |UserBadges(ids)| <= 3 then |UserBadges(ids)| else 3
  {
    var all := UserBadges(ids);
    if |all| <= 3 then all else all[..3]
  }

  /** `+N` after the icons, counted over the raw id list. */
  function MoreBadges(ids: seq<string>): Option<nat> {
    if |ids| > 3 then Some(|ids| - 3) else None
  }

  /** The overflow count appears exactly past three ids, and then the
      three slots and the count make up the raw id list. */
  lemma MoreBadgesCount(ids: seq<string>)
    ensures MoreBadges(ids).Some? <==> |ids| > 3
    ensures MoreBadges(ids).Some? ==> 3 + MoreBadges(ids).value == |ids|
  {
  }

  /** The overflow count is taken over the raw ids, so repeated ids yield a
      count although only one icon is shown. */
  lemma RepeatedIdsCountInOverflow()
    ensures var ids := ["first_project", "first_project", "first_project", "first_project"];
      |VisibleBadges(ids)| == 1 && MoreBadges(ids) == Some(1)
  {
    var ids := ["first_project", "first_project", "first_project", "first_project"];
    var held := (b: BadgeDef) => Held(ids, b);
    assert BADGES[0].id == "first_project";
    assert BADGES[1].id !in ids && BADGES[2].id !in ids && BADGES[3].id !in ids;
    assert Filter(BADGES[3..], held) == [];
    assert Filter(BADGES[2..], held) == [];
    assert Filter(BADGES[1..], held) == [];
    assert UserBadges(ids) == [BADGES[0]];
  }

  /** The rank badge. */
  datatype RankBadge = Gold | Silver | Bronze | Numbered(n: nat)

  /** The rank badge of the row at `index`: a medal for the first three,
      otherwise `#` and the position counted from 1. */
  function RankLabel(index: nat): (r: RankBadge)
    ensures r.Numbered? <==> index >= 3
    ensures r.Numbered? ==> r.n == index + 1 && r.n > 3
    ensures r == Gold <==> index == 0
    ensures r == Silver <==> index == 1
    ensures r == Bronze <==> index == 2
  {
    if index == 0 then Gold
    else if index == 1 then Silver
    else if index == 2 then Bronze
    else Numbered(index + 1)
  }

  /** The place class of the row at `index`. */
  function PlaceClass(index: nat): string {
    if index == 0 then "first-place"
    else if index == 1 then "second-place"
    else if index == 2 then "third-place"
    else ""
  }

  /** A row has a place class exactly when it shows a medal. */
  lemma PlaceClassMatchesMedal(index: nat)
    ensures PlaceClass(index) != "" <==> !RankLabel(index).Numbered?
  {
  }

  datatype Row = Row(user: User, rank: RankBadge, place: string, icons: seq<BadgeDef>, more: Option<nat>)

  /** `users.map((user, index) => …)`. */
  function Rows(users: seq<User>): (r: seq<Row>)
    ensures |r| == |users|
    ensures forall i :: 0 <= i < |r| ==>
      && r[i].user == users[i]
      && r[i].rank == RankLabel(i) && r[i].place == PlaceClass(i)
      && r[i].icons == VisibleBadges(users[i].badges) && r[i].more == MoreBadges(users[i].badges)
  {
    seq(|users|, i requires 0 <= i < |users| =>
      Row(users[i], RankLabel(i), PlaceClass(i), VisibleBadges(users[i].badges), MoreBadges(users[i].badges)))
  }

  /** Mounting the leaderboard: the ranking is read once. */
  method Mount(b: Browser) returns (rows: seq<Row>)
    modifies b
    ensures rows == Rows(Ranked(AllUsers(old(b.users))))
    ensures b.users == Some(AllUsers(old(b.users)))
    ensures b.projects == old(b.projects) && b.active == old(b.active)
  {
    var users := GetLeaderboard(b);
    rows := Rows(users);
  }

  /** The rows list every user once, by non-increasing points, and only the
      top three carry a medal. */
  lemma RowsRanked(users: seq<User>)
    ensures var r := Rows(Ranked(users));
      && |r| == |users|
      && (forall i, j :: 0 <= i < j < |r| ==> r[i].user.points >= r[j].user.points)
      && (forall u :: multiset(users)[u] == multiset(Ranked(users))[u])
      && (forall i :: 0 <= i < |r| ==> (r[i].rank.Numbered? <==> i >= 3))
  {
    assert |multiset(Ranked(users))| == |multiset(users)|;
  }
}
