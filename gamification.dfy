/** The social engine: badge and award catalogs, the points table, the user
    collection with its seeded default, the active-user shim, point
    bookkeeping, comments and awards. */
module Gamification {
  import opened Records
  import opened Seqs
  import opened Storage

  // ---------------------------------------------------------------------
  // Catalogs and constants
  // ---------------------------------------------------------------------

  const PUBLISH_PROJECT := 50
  const RECEIVE_APPRECIATION := 5
  const RECEIVE_LOVE := 5
  const RECEIVE_AWARD := 15
  const LEAVE_COMMENT := 5
  const GIVE_APPRECIATION := 2
  const SUBMIT_MADE_IT := 20

  datatype BadgeDef = BadgeDef(id: string, name: string, description: string, icon: string)

  const BADGES: seq<BadgeDef> := [
    BadgeDef("first_project", "First Steps", "Published your first project", "\U{1F31F}"),
    BadgeDef("popular_maker", "Popular Maker", "Received 10 appreciations", "\U{1F44F}"),
    BadgeDef("master_crafter", "Master Crafter", "Published 5 projects", "\U{1F3C6}"),
    BadgeDef("community_star", "Community Star", "Gave 20 appreciations to others", "\U{2B50}")
  ]

  datatype AwardDef = AwardDef(id: string, name: string, icon: string)

  const AWARDS: seq<AwardDef> := [
    AwardDef("creative", "Creative", "\U{1F3A8}"),
    AwardDef("helpful", "Helpful", "\U{1F91D}"),
    AwardDef("innovative", "Innovative", "\U{1F680}"),
    AwardDef("aesthetic", "Aesthetic", "\U{2728}")
  ]

  function BadgeId(b: BadgeDef): string { b.id }
  function AwardId(a: AwardDef): string { a.id }

  // ---------------------------------------------------------------------
  // Badge requirements
  // ---------------------------------------------------------------------

  function CompletedCount(projects: seq<Project>): nat {
    |Filter(projects, IsCompleted)|
  }

  /** The requirement attached to the catalog entry `badgeId`; an id outside
      the catalog has no requirement that can be met. */
  predicate Earns(badgeId: string, user: User, projects: seq<Project>) {
    if badgeId == "first_project" then CompletedCount(projects) >= 1
    else if badgeId == "popular_maker" then user.points >= 50
    else if badgeId == "master_crafter" then CompletedCount(projects) >= 5
    else if badgeId == "community_star" then user.points >= 100
    else false
  }

  lemma MasterCrafterImpliesFirstProject(user: User, projects: seq<Project>)
    ensures Earns("master_crafter", user, projects) ==> Earns("first_project", user, projects)
  {
  }

  lemma CommunityStarImpliesPopularMaker(user: User, projects: seq<Project>)
    ensures Earns("community_star", user, projects) ==> Earns("popular_maker", user, projects)
  {
  }

  /** Only catalog ids have a requirement. */
  lemma EarnsOnlyCatalogBadges(badgeId: string, user: User, projects: seq<Project>)
    ensures Earns(badgeId, user, projects) ==> FindIndex(BADGES, BadgeId, badgeId) != -1
  {
    if Earns(badgeId, user, projects) {
      var i := if badgeId == "first_project" then 0 else if badgeId == "popular_maker" then 1
               else if badgeId == "master_crafter" then 2 else 3;
      assert BadgeId(BADGES[i]) == badgeId;
    }
  }

  // ---------------------------------------------------------------------
  // The user collection
  // ---------------------------------------------------------------------

  /** The two accounts written when `'maker-users'` is absent. */
  const SEED_USERS: seq<User> := [
    User("user-1", "Pratik (Google)", Some("pratik@gmail.com"),
         Some("https://api.dicebear.com/7.x/avataaars/svg?seed=Felix"), 120, ["first_project"], None, Some(true)),
    User("user-2", "Maker (Google)", Some("maker@gmail.com"),
         Some("https://api.dicebear.com/7.x/avataaars/svg?seed=Aria"), 85, [], None, Some(true))
  ]

  /** The list `getAllUsers` returns for the stored value of `'maker-users'`. */
  function AllUsers(stored: Option<seq<User>>): seq<User> {
    stored.GetOr(SEED_USERS)
  }

  /** `getAllUsers`: returns the stored users; when none are stored it first
      writes the seed accounts. */
  method GetAllUsers(b: Browser) returns (users: seq<User>)
    modifies b
    ensures users == AllUsers(old(b.users))
    ensures b.users == Some(users)
    ensures b.projects == old(b.projects) && b.active == old(b.active)
  {
    if b.users.None? {
      b.users := Some(SEED_USERS);
    }
    users := b.users.value;
  }

  // ---------------------------------------------------------------------
  // Leaderboard ordering
  // ---------------------------------------------------------------------

  predicate ByPointsDesc(s: seq<User>) {
    forall i, j :: 0 <= i < j < |s| ==> s[i].points >= s[j].points
  }

  /** Inserts `u` in front of the first user with at most its points. */
  function Insert(u: User, s: seq<User>): (r: seq<User>)
    ensures |r| == |s| + 1
    ensures r[0] == u || (s != [] && r[0] == s[0])
  {
    if s == [] || s[0].points <= u.points then [u] + s
    else [s[0]] + Insert(u, s[1..])
  }

  /** Inserting into a list ordered by non-increasing points keeps it
      ordered. */
  lemma {:induction false} InsertOrdered(u: User, s: seq<User>)
    requires ByPointsDesc(s)
    ensures ByPointsDesc(Insert(u, s))
  {
    if s == [] || s[0].points <= u.points {
    } else {
      var t := Insert(u, s[1..]);
      InsertOrdered(u, s[1..]);
      var r := [s[0]] + t;
      assert Insert(u, s) == r;
      assert s[0].points >= t[0].points;
      forall i, j | 0 <= i < j < |r|
        ensures r[i].points >= r[j].points
      {
        if i > 0 {
          assert r[i] == t[i - 1] && r[j] == t[j - 1];
        } else {
          assert r[j] == t[j - 1];
        }
      }
    }
  }

  /** Inserting adds exactly `u` to the users. */
  lemma {:induction false} InsertPermutes(u: User, s: seq<User>)
    ensures multiset(Insert(u, s)) == multiset(s) + multiset{u}
  {
    if s == [] || s[0].points <= u.points {
    } else {
      InsertPermutes(u, s[1..]);
      assert s == [s[0]] + s[1..];
      assert Insert(u, s) == [s[0]] + Insert(u, s[1..]);
    }
  }

  /** The order of `users.sort((a, b) => b.points - a.points)`. */
  function Ranked(users: seq<User>): (r: seq<User>)
    ensures ByPointsDesc(r)
    ensures multiset(r) == multiset(users)
  {
    if users == [] then []
    else
      assert users == [users[0]] + users[1..];
      InsertOrdered(users[0], Ranked(users[1..]));
      InsertPermutes(users[0], Ranked(users[1..]));
      Insert(users[0], Ranked(users[1..]))
  }

  /** `getLeaderboard`. */
  method GetLeaderboard(b: Browser) returns (r: seq<User>)
    modifies b
    ensures r == Ranked(AllUsers(old(b.users)))
    ensures b.users == Some(AllUsers(old(b.users)))
    ensures b.projects == old(b.projects) && b.active == old(b.active)
  {
    var users := GetAllUsers(b);
    r := Ranked(users);
  }

  // ---------------------------------------------------------------------
  // The active-user shim and the upsert into the user collection
  // ---------------------------------------------------------------------

  function Prefer<T>(incoming: Option<T>, stored: Option<T>): Option<T> {
    if incoming.Some? then incoming else stored
  }

  /** `{ ...stored, ...incoming }`: every property `incoming` carries wins,
      the optional ones it lacks are kept from `stored`. */
  function Merge(stored: User, incoming: User): User {
    incoming.(email := Prefer(incoming.email, stored.email),
              avatar := Prefer(incoming.avatar, stored.avatar),
              bio := Prefer(incoming.bio, stored.bio),
              isMock := Prefer(incoming.isMock, stored.isMock))
  }

  /** The user list `setCurrentUser` writes back: an id not yet present is
      appended; a present id is merged in place at its first position. */
  function Upsert(users: seq<User>, user: User): (r: seq<User>)
    ensures var i := FindIndex(users, UserId, user.id);
      && |r| == |users| + (if i == -1 then 1 else 0)
      && FindIndex(r, UserId, user.id) == (if i == -1 then |users| else i)
      && forall j :: 0 <= j < |users| && j != i ==> r[j] == users[j]
    ensures var k := FindIndex(r, UserId, user.id);
      && 0 <= k
      && r[k].username == user.username && r[k].points == user.points && r[k].badges == user.badges
      && (user.email.Some? ==> r[k].email == user.email)
      && (user.avatar.Some? ==> r[k].avatar == user.avatar)
    ensures var i := FindIndex(users, UserId, user.id);
      i == -1 ==> r[|users|] == user
    ensures var i := FindIndex(users, UserId, user.id);
      i != -1 ==>
        && (user.email.None? ==> r[i].email == users[i].email)
        && (user.avatar.None? ==> r[i].avatar == users[i].avatar)
        && (user.bio.Some? ==> r[i].bio == user.bio)
        && (user.bio.None? ==> r[i].bio == users[i].bio)
        && (user.isMock.Some? ==> r[i].isMock == user.isMock)
        && (user.isMock.None? ==> r[i].isMock == users[i].isMock)
  {
    var i := FindIndex(users, UserId, user.id);
    if i == -1 then
      var r := users + [user];
      assert UserId(r[|users|]) == user.id;
      r
    else
      var r := users[i := Merge(users[i], user)];
      assert UserId(r[i]) == user.id;
      assert forall j :: 0 <= j < i ==> r[j] == users[j];
      r
  }

  /** `setCurrentUser`: stores `user` as the active user and upserts it. */
  method SetCurrentUser(b: Browser, user: User)
    modifies b
    ensures b.active == Some(user)
    ensures b.users == Some(Upsert(AllUsers(old(b.users)), user))
    ensures b.projects == old(b.projects)
  {
    b.active := Some(user);
    var users := GetAllUsers(b);
    var existingIndex := FindIndex(users, UserId, user.id);
    if existingIndex == -1 {
      users := users + [user];
    } else {
      users := users[existingIndex := Merge(users[existingIndex], user)];
    }
    b.users := Some(users);
  }

  /** `logout`. */
  method Logout(b: Browser)
    modifies b
    ensures b.active == None
    ensures b.users == old(b.users) && b.projects == old(b.projects)
  {
    b.active := None;
  }

  // ---------------------------------------------------------------------
  // Point bookkeeping
  // ---------------------------------------------------------------------

  /** The user list after `updateUserPoints(userId, delta)`: the first user
      with that id gains `delta`; nothing else changes. */
  function AddPoints(users: seq<User>, userId: string, delta: int): (r: seq<User>)
    ensures |r| == |users|
    ensures forall j :: 0 <= j < |users| && j != FindIndex(users, UserId, userId) ==> r[j] == users[j]
    ensures var i := FindIndex(users, UserId, userId);
      i != -1 ==> r[i] == users[i].(points := users[i].points + delta)
  {
    var i := FindIndex(users, UserId, userId);
    if i == -1 then users else users[i := users[i].(points := users[i].points + delta)]
  }

  function TotalPoints(users: seq<User>): int {
    if users == [] then 0 else users[0].points + TotalPoints(users[1..])
  }

  lemma {:induction false} TotalPointsUpdate(users: seq<User>, i: nat, u: User)
    requires i < |users|
    ensures TotalPoints(users[i := u]) == TotalPoints(users) - users[i].points + u.points
  {
    if i > 0 {
      assert users[i := u][1..] == users[1..][i - 1 := u];
      TotalPointsUpdate(users[1..], i - 1, u);
    }
  }

  /** The points over all users grow by exactly `delta` when the user is
      found, and not at all otherwise. */
  lemma AddPointsTotal(users: seq<User>, userId: string, delta: int)
    ensures TotalPoints(AddPoints(users, userId, delta))
         == TotalPoints(users) + (if FindIndex(users, UserId, userId) == -1 then 0 else delta)
  {
    var i := FindIndex(users, UserId, userId);
    if i != -1 {
      TotalPointsUpdate(users, i, users[i].(points := users[i].points + delta));
    }
  }

  lemma {:induction false} FindIndexSameKeys(s: seq<User>, t: seq<User>, k: string)
    requires |s| == |t| && forall j :: 0 <= j < |s| ==> s[j].id == t[j].id
    ensures FindIndex(s, UserId, k) == FindIndex(t, UserId, k)
  {
    if s != [] {
      FindIndexSameKeys(s[1..], t[1..], k);
    }
  }

  /** `n` successive `updateUserPoints(userId, delta)` calls. */
  function CreditTimes(users: seq<User>, userId: string, delta: int, n: nat): seq<User> {
    if n == 0 then users else AddPoints(CreditTimes(users, userId, delta, n - 1), userId, delta)
  }

  /** Point grants never change which user sits where. */
  lemma {:induction false} CreditTimesKeys(users: seq<User>, userId: string, delta: int, n: nat)
    ensures |CreditTimes(users, userId, delta, n)| == |users|
    ensures forall j :: 0 <= j < |users| ==> CreditTimes(users, userId, delta, n)[j].id == users[j].id
  {
    if n > 0 {
      CreditTimesKeys(users, userId, delta, n - 1);
    }
  }

  /** `delta` added up `n` times. */
  function Repeated(n: nat, delta: int): int {
    if n == 0 then 0 else Repeated(n - 1, delta) + delta
  }

  lemma {:induction false} RepeatedIsProduct(n: nat, delta: int)
    ensures Repeated(n, delta) == n * delta
  {
    if n > 0 {
      RepeatedIsProduct(n - 1, delta);
      assert (n - 1) * delta + delta == n * delta;
    }
  }

  /** A grant to a list with the same ids as `users` lands at the position
      where `users` has that id. */
  lemma CreditStep(prev: seq<User>, users: seq<User>, userId: string, delta: int, i: nat)
    requires i == FindIndex(users, UserId, userId)
    requires |prev| == |users| && forall j :: 0 <= j < |users| ==> prev[j].id == users[j].id
    ensures AddPoints(prev, userId, delta)[i].points == prev[i].points + delta
    ensures forall j :: 0 <= j < |users| && j != i ==> AddPoints(prev, userId, delta)[j] == prev[j]
  {
    FindIndexSameKeys(prev, users, userId);
  }

  lemma {:induction false} CreditTimesGain(users: seq<User>, userId: string, delta: int, n: nat, i: nat)
    requires i == FindIndex(users, UserId, userId)
    ensures |CreditTimes(users, userId, delta, n)| == |users|
    ensures CreditTimes(users, userId, delta, n)[i].points == users[i].points + Repeated(n, delta)
    ensures forall j :: 0 <= j < |users| && j != i ==> CreditTimes(users, userId, delta, n)[j] == users[j]
  {
    CreditTimesKeys(users, userId, delta, n);
    if n > 0 {
      CreditTimesGain(users, userId, delta, n - 1, i);
      CreditTimesKeys(users, userId, delta, n - 1);
      CreditStep(CreditTimes(users, userId, delta, n - 1), users, userId, delta, i);
    }
  }

  /** A user starting at P points who earns `delta` for each of `n` actions
      ends at exactly P + n * delta; every other user is untouched. */
  lemma CreditTimesPoints(users: seq<User>, userId: string, delta: int, n: nat, i: nat)
    requires i == FindIndex(users, UserId, userId)
    ensures |CreditTimes(users, userId, delta, n)| == |users|
    ensures CreditTimes(users, userId, delta, n)[i].points == users[i].points + n * delta
    ensures forall j :: 0 <= j < |users| && j != i ==> CreditTimes(users, userId, delta, n)[j] == users[j]
  {
    CreditTimesGain(users, userId, delta, n, i);
    RepeatedIsProduct(n, delta);
  }

  /** What `'maker-users'` and `'maker-active-user'` hold. */
  datatype Accounts = Accounts(users: seq<User>, active: Option<User>)

  /** `updateUserPoints(userId, delta)` on the stored users and the active
      user: the active copy gains the same `delta`, and only when its id is
      `userId` and that user was found in the list. */
  function Credit(users: seq<User>, active: Option<User>, userId: string, delta: int): (r: Accounts)
    ensures r.users == AddPoints(users, userId, delta)
    ensures r.active.Some? <==> active.Some?
    ensures active.Some? ==> r.active.value.(points := active.value.points) == active.value
    ensures active.Some? ==> (r.active.value.points == active.value.points
      + (if FindIndex(users, UserId, userId) != -1 && active.value.id == userId then delta else 0))
  {
    var found := FindIndex(users, UserId, userId) != -1;
    var active' := if found && active.Some? && active.value.id == userId
                   then Some(active.value.(points := active.value.points + delta))
                   else active;
    Accounts(AddPoints(users, userId, delta), active')
  }

  /** `updateUserPoints`. */
  method UpdateUserPoints(b: Browser, userId: string, delta: int)
    modifies b
    ensures var acc := Credit(AllUsers(old(b.users)), old(b.active), userId, delta);
      b.users == Some(acc.users) && b.active == acc.active
    ensures b.projects == old(b.projects)
  {
    var users := GetAllUsers(b);
    var userIndex := FindIndex(users, UserId, userId);
    if userIndex != -1 {
      users := users[userIndex := users[userIndex].(points := users[userIndex].points + delta)];
      b.users := Some(users);
      var active := b.active;
      if active.Some? && active.value.id == userId {
        b.active := Some(active.value.(points := active.value.points + delta));
      }
    }
  }

  // ---------------------------------------------------------------------
  // Comments
  // ---------------------------------------------------------------------

  /** The comment `addComment` builds; the random id and the ISO timestamp
      are parameters. */
  function NewComment(user: User, text: string, commentId: string, timestamp: int): Comment {
    Comment(commentId, user.id, user.username, user.avatar, text, timestamp)
  }

  /** A project with `c` appended to its comments; a missing `social`
      defaults to empty lists. */
  function Commented(p: Project, c: Comment): (q: Project)
    ensures q.social.Some?
    ensures SocialOf(q).comments == SocialOf(p).comments + [c]
    ensures SocialOf(q).awards == SocialOf(p).awards
    ensures SocialOf(q).madeItPhotos == SocialOf(p).madeItPhotos
    ensures q.(social := p.social) == p
  {
    var social := SocialOf(p);
    p.(social := Some(social.(comments := social.comments + [c])))
  }

  /** The project list `addComment` writes back. */
  function CommentAdded(projects: seq<Project>, projectId: string, c: Comment): seq<Project> {
    MapWhere(projects, ProjectId, projectId, (p: Project) => Commented(p, c))
  }

  /** Each project with the id gains exactly one comment, at the end; every
      other project is unchanged. */
  lemma CommentAddedShape(projects: seq<Project>, projectId: string, c: Comment)
    ensures var r := CommentAdded(projects, projectId, c);
      && |r| == |projects|
      && (forall i :: 0 <= i < |r| && projects[i].id == projectId ==>
            SocialOf(r[i]).comments == SocialOf(projects[i]).comments + [c]
            && |SocialOf(r[i]).comments| == |SocialOf(projects[i]).comments| + 1)
      && (forall i :: 0 <= i < |r| && projects[i].id != projectId ==> r[i] == projects[i])
  {
  }

  /** `addComment`: a no-op without an active user or without a stored
      project collection; otherwise the comment is appended to every project
      with the id and the commenter gains LEAVE_COMMENT, whether or not an
      id matched. */
  method AddComment(b: Browser, projectId: string, text: string, commentId: string, timestamp: int)
    modifies b
    ensures old(b.active).None? || old(b.projects).None? ==>
      b.projects == old(b.projects) && b.users == old(b.users) && b.active == old(b.active)
    ensures old(b.active).Some? && old(b.projects).Some? ==>
      var user := old(b.active).value;
      var acc := Credit(AllUsers(old(b.users)), old(b.active), user.id, LEAVE_COMMENT);
      && b.projects == Some(CommentAdded(old(b.projects).value, projectId, NewComment(user, text, commentId, timestamp)))
      && b.users == Some(acc.users) && b.active == acc.active
  {
    var user := b.active;
    if user.None? {
      return;
    }
    var saved := b.projects;
    if saved.None? {
      return;
    }
    var updated := CommentAdded(saved.value, projectId, NewComment(user.value, text, commentId, timestamp));
    b.projects := Some(updated);
    UpdateUserPoints(b, user.value.id, LEAVE_COMMENT);
  }

  // ---------------------------------------------------------------------
  // Awards
  // ---------------------------------------------------------------------

  /** A project with `awardId` appended to its awards (duplicates allowed). */
  function Awarded(p: Project, awardId: string): (q: Project)
    ensures q.social.Some?
    ensures SocialOf(q).awards == SocialOf(p).awards + [awardId]
    ensures SocialOf(q).comments == SocialOf(p).comments
    ensures SocialOf(q).madeItPhotos == SocialOf(p).madeItPhotos
    ensures q.(social := p.social) == p
  {
    var social := SocialOf(p);
    p.(social := Some(social.(awards := social.awards + [awardId])))
  }

  /** The accounts after a gift: the author gains RECEIVE_AWARD when the
      project names one, then the gifter gains GIVE_APPRECIATION. */
  function AwardCredit(users: seq<User>, active: Option<User>, authorId: Option<string>, gifterId: string): Accounts {
    var first := if Truthy(authorId) then Credit(users, active, authorId.value, RECEIVE_AWARD)
                 else Accounts(users, active);
    Credit(first.users, first.active, gifterId, GIVE_APPRECIATION)
  }

  /** A gift adds RECEIVE_AWARD to the total for a named, known author and
      GIVE_APPRECIATION for a known gifter. */
  lemma AwardCreditTotal(users: seq<User>, active: Option<User>, authorId: Option<string>, gifterId: string)
    ensures TotalPoints(AwardCredit(users, active, authorId, gifterId).users)
         == TotalPoints(users)
          + (if Truthy(authorId) && FindIndex(users, UserId, authorId.value) != -1 then RECEIVE_AWARD else 0)
          + (if FindIndex(users, UserId, gifterId) != -1 then GIVE_APPRECIATION else 0)
  {
    if Truthy(authorId) {
      AddPointsTotal(users, authorId.value, RECEIVE_AWARD);
      var mid := AddPoints(users, authorId.value, RECEIVE_AWARD);
      FindIndexSameKeys(mid, users, gifterId);
      AddPointsTotal(mid, gifterId, GIVE_APPRECIATION);
    } else {
      AddPointsTotal(users, gifterId, GIVE_APPRECIATION);
    }
  }

  /** `awardProject`: without an active user, a stored project collection or
      a project with the id, nothing changes; otherwise the first project
      with the id gains the award and the points are granted. */
  method AwardProject(b: Browser, projectId: string, awardId: string)
    modifies b
    ensures old(b.active).None? || old(b.projects).None?
            || FindIndex(old(b.projects).value, ProjectId, projectId) == -1 ==>
      b.projects == old(b.projects) && b.users == old(b.users) && b.active == old(b.active)
    ensures old(b.active).Some? && old(b.projects).Some?
            && FindIndex(old(b.projects).value, ProjectId, projectId) != -1 ==>
      var all := old(b.projects).value;
      var i := FindIndex(all, ProjectId, projectId);
      var acc := AwardCredit(AllUsers(old(b.users)), old(b.active), all[i].authorId, old(b.active).value.id);
      && b.projects == Some(all[i := Awarded(all[i], awardId)])
      && b.users == Some(acc.users) && b.active == acc.active
  {
    var user := b.active;
    if user.None? {
      return;
    }
    var saved := b.projects;
    if saved.None? {
      return;
    }
    var allProjects := saved.value;
    var targetProjectIndex := FindIndex(allProjects, ProjectId, projectId);
    if targetProjectIndex != -1 {
      var targetProject := allProjects[targetProjectIndex];
      allProjects := allProjects[targetProjectIndex := Awarded(targetProject, awardId)];
      b.projects := Some(allProjects);
      if Truthy(targetProject.authorId) {
        UpdateUserPoints(b, targetProject.authorId.value, RECEIVE_AWARD);
      }
      UpdateUserPoints(b, user.value.id, GIVE_APPRECIATION);
    }
  }
}
