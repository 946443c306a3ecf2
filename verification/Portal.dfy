/** The workshop portal (web/app/routes.py): it hands each user one cluster, at login or
    registration, out of the clusters that administrators add. Every request is one step. */
module Portal {
  import opened Wrappers

  datatype User = User(email: string, isAdmin: bool, mustReset: bool, lastIp: Option<string>, cluster: Option<nat>)

  datatype Cluster = Cluster(ip: string, namespace: string, instance: int)

  datatype State = State(users: map<nat, User>, clusters: map<nat, Cluster>, nextUser: nat, nextCluster: nat)

  // `granted` is whether the request gets as far as the database: the form or payload is
  // valid, its values are ones that the columns can hold, and the visitor may make it (not
  // signed in yet, for logins and registrations; an administrator, for the others). `row` is
  // what the database would store for the payload, None if it can store none of it: an
  // instance id, for one, is sent as text and stored as an integer.
  datatype Request =
    | Login(email: string, passwordOk: bool, ip: string, granted: bool)
    | Register(email: string, ip: string, granted: bool)
    | ResetOwnPassword(email: string, valid: bool)
    | DeleteUser(user: nat, granted: bool)
    | ResetPassword(user: nat, hasCode: bool, granted: bool)
    | AddCluster(row: Option<Cluster>, granted: bool)
    | DeleteCluster(cluster: nat, granted: bool)
    | CreateAdmin(email: string, granted: bool)

  function Held(users: map<nat, User>): set<nat> {
    set u | u in users && users[u].cluster.Some? :: users[u].cluster.value
  }

  function Free(users: map<nat, User>, clusters: map<nat, Cluster>): set<nat> {
    clusters.Keys - Held(users)
  }

  predicate HasEmail(users: map<nat, User>, email: string) {
    exists u :: u in users && users[u].email == email
  }

  /** `c` is what the user gets: the cluster it has, or any free one, or none if none is free. */
  predicate Allotted(users: map<nat, User>, clusters: map<nat, Cluster>, had: Option<nat>, c: Option<nat>) {
    if had.Some? then c == had
    else if Free(users, clusters) == {} then c == None
    else c.Some? && c.value in Free(users, clusters)
  }

  /** Deleting a cluster leaves the users that held it without one. */
  function Released(users: map<nat, User>, c: nat): map<nat, User> {
    map u | u in users :: if users[u].cluster == Some(c) then users[u].(cluster := None) else users[u]
  }

  /** No other cluster has the address, or the namespace and instance, of `c`. */
  predicate Unclaimed(clusters: map<nat, Cluster>, c: Cluster) {
    forall i :: i in clusters ==>
        clusters[i].ip != c.ip && (clusters[i].namespace, clusters[i].instance) != (c.namespace, c.instance)
  }

  /** The steps of the portal. */
  ghost predicate Step(s: State, a: Request, s': State) {
    match a
    case Login(email, passwordOk, ip, granted) =>
      if granted && passwordOk && exists u :: u in s.users && s.users[u].email == email && !s.users[u].mustReset then
        exists u, c ::
          && u in s.users && s.users[u].email == email && !s.users[u].mustReset
          && Allotted(s.users, s.clusters, s.users[u].cluster, c)
          && s' == s.(users := s.users[u := s.users[u].(cluster := c, lastIp := Some(ip))])
      else s' == s
    case Register(email, ip, granted) =>
      if granted && !HasEmail(s.users, email) then
        exists c ::
          && Allotted(s.users, s.clusters, None, c)
          && s' == s.(users := s.users[s.nextUser := User(email, false, false, Some(ip), c)],
              nextUser := s.nextUser + 1)
      else s' == s
    case ResetOwnPassword(email, valid) =>
      if valid && HasEmail(s.users, email) then
        exists u :: u in s.users && s.users[u].email == email
            && s' == s.(users := s.users[u := s.users[u].(mustReset := false)])
      else s' == s
    case DeleteUser(u, granted) =>
      s' == if granted then s.(users := s.users - {u}) else s
    case ResetPassword(u, hasCode, granted) =>
      s' == if granted && hasCode && u in s.users then s.(users := s.users[u := s.users[u].(mustReset := true)]) else s
    case AddCluster(row, granted) =>
      s' == if granted && row.Some? && Unclaimed(s.clusters, row.value)
            then s.(clusters := s.clusters[s.nextCluster := row.value], nextCluster := s.nextCluster + 1) else s
    case DeleteCluster(c, granted) =>
      s' == if granted && c in s.clusters
            then s.(users := Released(s.users, c), clusters := s.clusters - {c}) else s
    case CreateAdmin(email, granted) =>
      if !granted || exists u :: u in s.users && s.users[u].isAdmin then s' == s
      else if HasEmail(s.users, email) then
        exists u :: u in s.users && s.users[u].email == email
            && s' == s.(users := s.users[u := s.users[u].(isAdmin := true)])
      else s' == s.(users := s.users[s.nextUser := User(email, true, false, None, None)], nextUser := s.nextUser + 1)
  }

  class Server {
    var users: map<nat, User>
    var clusters: map<nat, Cluster>
    var nextUser: nat
    var nextCluster: nat

    constructor ()
      ensures Now() == State(map[], map[], 1, 1)
    {
      users, clusters, nextUser, nextCluster := map[], map[], 1, 1;
    }

    function Now(): State
      reads this
    {
      State(users, clusters, nextUser, nextCluster)
    }

    method FindByEmail(email: string) returns (user: Option<nat>)
      ensures user.Some? ==> user.value in users && users[user.value].email == email
      ensures user.None? ==> !HasEmail(users, email)
    {
      user := None;
      var todo := users.Keys;
      while todo != {} && user.None?
        invariant todo <= users.Keys
        invariant user.None? ==> forall u :: u in users && u !in todo ==> users[u].email != email
        invariant user.Some? ==> user.value in users && users[user.value].email == email
        decreases |todo|
      {
        var u :| u in todo;
        todo := todo - {u};
        if users[u].email == email {
          user := Some(u);
        }
      }
    }

    /** Some cluster that no user holds, if there is one. */
    method FirstFree() returns (c: Option<nat>)
      ensures Allotted(users, clusters, None, c)
    {
      var taken := Held(users);
      var free := clusters.Keys - taken;
      if free == {} {
        c := None;
      } else {
        var first :| first in free;
        c := Some(first);
      }
    }

    method LoginPage(email: string, passwordOk: bool, ip: string, granted: bool)
      requires Inv(Now())
      modifies this
      ensures Step(old(Now()), Login(email, passwordOk, ip, granted), Now())
    {
      if !granted {
        return;
      }
      var user := FindByEmail(email);
      if user.None? || !passwordOk || users[user.value].mustReset {
        return;
      }
      var u := user.value;
      var c := users[u].cluster;
      if c.None? {
        c := FirstFree();
      }
      users := users[u := users[u].(cluster := c, lastIp := Some(ip))];
    }

    method RegisterPage(email: string, ip: string, granted: bool)
      modifies this
      ensures Step(old(Now()), Register(email, ip, granted), Now())
    {
      var user := FindByEmail(email);
      if granted && user.None? {
        var c := FirstFree();
        users := users[nextUser := User(email, false, false, Some(ip), c)];
        nextUser := nextUser + 1;
      }
    }

    method PasswordResetPage(email: string, valid: bool)
      modifies this
      ensures Step(old(Now()), ResetOwnPassword(email, valid), Now())
    {
      var user := FindByEmail(email);
      if valid && user.Some? {
        users := users[user.value := users[user.value].(mustReset := false)];
      }
    }

    method UsersPageDelete(u: nat, granted: bool)
      modifies this
      ensures Step(old(Now()), DeleteUser(u, granted), Now())
      ensures old(Inv(Now())) ==>
        forall c :: IsFree(Now(), c) <==> old(IsFree(Now(), c)) || (granted && old(Holds(Now(), u, c)))
    {
      ghost var before := Now();
      if granted {
        users := users - {u};
      }
      forall c | Inv(before) ensures IsFree(Now(), c) <==> IsFree(before, c) || (granted && Holds(before, u, c)) {
        FreedExactly(before, DeleteUser(u, granted), Now(), c);
        if IsFree(before, c) {
          TakenExactly(before, DeleteUser(u, granted), Now(), c);
        }
      }
    }

    method UsersPageReset(u: nat, hasCode: bool, granted: bool)
      modifies this
      ensures Step(old(Now()), ResetPassword(u, hasCode, granted), Now())
      ensures forall v, c :: Holds(Now(), v, c) <==> old(Holds(Now(), v, c))
    {
      if granted && hasCode && u in users {
        users := users[u := users[u].(mustReset := true)];
      }
    }

    method AddClusterApi(row: Option<Cluster>, granted: bool)
      modifies this
      ensures Step(old(Now()), AddCluster(row, granted), Now())
    {
      if granted && row.Some? && Unclaimed(clusters, row.value) {
        clusters := clusters[nextCluster := row.value];
        nextCluster := nextCluster + 1;
      }
    }

    method ClustersPageDelete(c: nat, granted: bool)
      modifies this
      ensures Step(old(Now()), DeleteCluster(c, granted), Now())
    {
      if granted && c in clusters {
        users := Released(users, c);
        clusters := clusters - {c};
      }
    }

    method CreateAdminApi(email: string, granted: bool)
      modifies this
      ensures Step(old(Now()), CreateAdmin(email, granted), Now())
    {
      if !granted || exists u :: u in users && users[u].isAdmin {
        return;
      }
      var user := FindByEmail(email);
      if user.Some? {
        users := users[user.value := users[user.value].(isAdmin := true)];
      } else {
        users := users[nextUser := User(email, true, false, None, None)];
        nextUser := nextUser + 1;
      }
    }
  }

  // What every step keeps.

  /** No cluster is held by two users, every held cluster exists, and nothing that must be
      unique is repeated. */
  ghost predicate Inv(s: State) {
    && s.nextUser >= 1 && s.nextCluster >= 1
    && (forall u :: u in s.users && s.users[u].cluster.Some? ==> s.users[u].cluster.value in s.clusters)
    && (forall u, v :: u in s.users && v in s.users && u != v && s.users[u].cluster.Some? ==>
        s.users[u].cluster != s.users[v].cluster)
    && (forall u, v :: u in s.users && v in s.users && u != v ==> s.users[u].email != s.users[v].email)
    && (forall u :: u in s.users ==> 1 <= u < s.nextUser)
    && (forall c :: c in s.clusters ==> 1 <= c < s.nextCluster)
    && (forall c, d :: c in s.clusters && d in s.clusters && c != d ==>
          s.clusters[c].ip != s.clusters[d].ip
          && (s.clusters[c].namespace, s.clusters[c].instance) != (s.clusters[d].namespace, s.clusters[d].instance))
  }

  /** A row for user `u`, new or updated, that does not clash with the others. */
  lemma PutUser(s: State, u: nat, x: User, next: nat)
    requires Inv(s) && 1 <= u < next && s.nextUser <= next
    requires forall v :: v in s.users && v != u ==> s.users[v].email != x.email
    requires x.cluster.Some? ==> x.cluster.value in s.clusters
    requires forall v :: v in s.users && v != u && x.cluster.Some? ==> s.users[v].cluster != x.cluster
    ensures Inv(s.(users := s.users[u := x], nextUser := next))
  {
  }

  lemma FreeIsUnheld(s: State, had: Option<nat>, c: Option<nat>)
    requires Allotted(s.users, s.clusters, had, c) && had.None? && c.Some?
    ensures c.value in s.clusters && forall v :: v in s.users ==> s.users[v].cluster != c
  {
    forall v | v in s.users ensures s.users[v].cluster != c {
      assert s.users[v].cluster.Some? ==> s.users[v].cluster.value in Held(s.users);
    }
  }

  lemma ReleasedUsers(users: map<nat, User>, c: nat)
    ensures var released := Released(users, c);
            && released.Keys == users.Keys
            && (forall u :: u in users ==> released[u].email == users[u].email)
            && (forall u :: u in users ==>
                  released[u].cluster == if users[u].cluster == Some(c) then None else users[u].cluster)
  {
  }

  lemma ReleaseKeepsInv(s: State, c: nat)
    requires Inv(s)
    ensures Inv(s.(users := Released(s.users, c), clusters := s.clusters - {c}))
  {
    ReleasedUsers(s.users, c);
  }

  lemma AddKeepsInv(s: State, c: Cluster)
    requires Inv(s) && Unclaimed(s.clusters, c)
    ensures Inv(s.(clusters := s.clusters[s.nextCluster := c], nextCluster := s.nextCluster + 1))
  {
  }

  lemma LoginKeepsInv(s: State, email: string, passwordOk: bool, ip: string, granted: bool, s': State)
    requires Inv(s) && Step(s, Login(email, passwordOk, ip, granted), s')
    ensures Inv(s')
  {
    if s' != s {
      var u, c :| u in s.users && s.users[u].email == email && Allotted(s.users, s.clusters, s.users[u].cluster, c)
                  && s' == s.(users := s.users[u := s.users[u].(cluster := c, lastIp := Some(ip))]);
      if s.users[u].cluster.None? && c.Some? {
        FreeIsUnheld(s, None, c);
      }
      PutUser(s, u, s.users[u].(cluster := c, lastIp := Some(ip)), s.nextUser);
    }
  }

  lemma RegisterKeepsInv(s: State, email: string, ip: string, granted: bool, s': State)
    requires Inv(s) && Step(s, Register(email, ip, granted), s')
    ensures Inv(s')
  {
    if s' != s {
      var c :| Allotted(s.users, s.clusters, None, c)
               && s' == s.(users := s.users[s.nextUser := User(email, false, false, Some(ip), c)],
                   nextUser := s.nextUser + 1);
      if c.Some? {
        FreeIsUnheld(s, None, c);
      }
      PutUser(s, s.nextUser, User(email, false, false, Some(ip), c), s.nextUser + 1);
    }
  }

  lemma ResetsKeepInv(s: State, a: Request, s': State)
    requires (a.ResetOwnPassword? || a.ResetPassword?) && Inv(s) && Step(s, a, s')
    ensures Inv(s')
  {
    if s' != s {
      if a.ResetPassword? {
        PutUser(s, a.user, s.users[a.user].(mustReset := true), s.nextUser);
      } else {
        var u :| u in s.users && s.users[u].email == a.email
            && s' == s.(users := s.users[u := s.users[u].(mustReset := false)]);
        PutUser(s, u, s.users[u].(mustReset := false), s.nextUser);
      }
    }
  }

  lemma CreateAdminKeepsInv(s: State, email: string, granted: bool, s': State)
    requires Inv(s) && Step(s, CreateAdmin(email, granted), s')
    ensures Inv(s')
  {
    if s' != s {
      if HasEmail(s.users, email) {
        var u :| u in s.users && s.users[u].email == email
            && s' == s.(users := s.users[u := s.users[u].(isAdmin := true)]);
        PutUser(s, u, s.users[u].(isAdmin := true), s.nextUser);
      } else {
        PutUser(s, s.nextUser, User(email, true, false, None, None), s.nextUser + 1);
      }
    }
  }

  lemma FewerUsersKeepInv(s: State, u: nat)
    requires Inv(s)
    ensures Inv(s.(users := s.users - {u}))
  {
  }

  /** Every step keeps the invariant. */
  lemma StepKeepsInv(s: State, a: Request, s': State)
    requires Inv(s) && Step(s, a, s')
    ensures Inv(s')
  {
    match a
    case Login(email, passwordOk, ip, granted) => LoginKeepsInv(s, email, passwordOk, ip, granted, s');
    case Register(email, ip, granted) => RegisterKeepsInv(s, email, ip, granted, s');
    case ResetOwnPassword(_, _) => ResetsKeepInv(s, a, s');
    case ResetPassword(_, _, _) => ResetsKeepInv(s, a, s');
    case CreateAdmin(email, granted) => CreateAdminKeepsInv(s, email, granted, s');
    case DeleteUser(u, _) => FewerUsersKeepInv(s, u);
    case DeleteCluster(c, _) => ReleaseKeepsInv(s, c);
    case AddCluster(row, granted) =>
      if granted && row.Some? && Unclaimed(s.clusters, row.value) {
        AddKeepsInv(s, row.value);
      }
  }

  ghost predicate Execution(states: seq<State>, requests: seq<Request>) {
    && |states| == |requests| + 1 && states[0] == State(map[], map[], 1, 1)
    && forall i :: 0 <= i < |requests| ==> Step(states[i], requests[i], states[i + 1])
  }

  /** The invariant holds in every state that the portal can reach. */
  lemma {:induction false} ReachableStatesAreSafe(states: seq<State>, requests: seq<Request>, i: nat)
    requires Execution(states, requests) && i < |states|
    ensures Inv(states[i])
  {
    if i > 0 {
      ReachableStatesAreSafe(states, requests, i - 1);
      StepKeepsInv(states[i - 1], requests[i - 1], states[i - 1 + 1]);
    }
  }

  // Counting.

  function Holders(users: map<nat, User>): set<nat> {
    set u | u in users && users[u].cluster.Some?
  }

  lemma {:induction false} InjectiveMapSize<K, V>(m: map<K, V>)
    requires forall a, b :: a in m && b in m && a != b ==> m[a] != m[b]
    ensures |m.Values| == |m.Keys|
    decreases |m.Keys|
  {
    if m.Keys == {} {
      assert m.Values == {};
    } else {
      var k :| k in m.Keys;
      var rest := m - {k};
      assert rest.Keys == m.Keys - {k};
      assert forall a :: a in rest ==> rest[a] == m[a];
      InjectiveMapSize(rest);
      assert m.Values == rest.Values + {m[k]};
    }
  }

  lemma OneClusterEach(s: State)
    requires Inv(s)
    ensures |Held(s.users)| == |Holders(s.users)|
  {
    var m := map u | u in s.users && s.users[u].cluster.Some? :: s.users[u].cluster.value;
    InjectiveMapSize(m);
    assert m.Keys == Holders(s.users);
    forall c | c in Held(s.users) ensures c in m.Values {
      var u :| u in s.users && s.users[u].cluster == Some(c);
      assert u in m && m[u] == c;
    }
    assert m.Values == Held(s.users);
  }

  /** Held and free clusters together are all clusters, and each held one has one holder. */
  lemma ClustersAreConserved(s: State)
    requires Inv(s)
    ensures |Holders(s.users)| + |Free(s.users, s.clusters)| == |s.clusters|
  {
    OneClusterEach(s);
    var held := Held(s.users);
    assert held <= s.clusters.Keys;
    SplitSize(s.clusters.Keys, held);
  }

  lemma SplitSize<T>(all: set<T>, part: set<T>)
    requires part <= all
    ensures |part| + |all - part| == |all|
  {
    assert all == part + (all - part);
  }

  /** The request signs user `u` in. */
  predicate SignsIn(s: State, a: Request, u: nat) {
    match a
    case Login(email, passwordOk, _, granted) =>
      granted && passwordOk && u in s.users && s.users[u].email == email && !s.users[u].mustReset
    case Register(email, _, granted) => granted && !HasEmail(s.users, email) && u == s.nextUser
    case _ => false
  }

  /** Who signs in goes without a cluster exactly when as many other users hold clusters as
      there are clusters. */
  lemma OnlyAFullPortalTurnsAway(s: State, a: Request, s': State, u: nat)
    requires Inv(s) && Step(s, a, s') && SignsIn(s, a, u)
    ensures u in s'.users
    ensures s'.users[u].cluster.None? <==> |Holders(s'.users) - {u}| == |s'.clusters|
  {
    StepKeepsInv(s, a, s');
    SignedIn(s, a, s', u);
    CountOthers(s', u);
  }

  lemma CountOthers(s: State, u: nat)
    requires Inv(s) && u in s.users
    ensures |Holders(s.users) - {u}| ==
            |s.clusters| - |Free(s.users, s.clusters)| - if s.users[u].cluster.Some? then 1 else 0
  {
    ClustersAreConserved(s);
    WithoutOne(Holders(s.users), u);
    assert u in Holders(s.users) <==> s.users[u].cluster.Some?;
  }

  lemma WithoutOne<T>(s: set<T>, x: T)
    ensures |s - {x}| == |s| - if x in s then 1 else 0
  {
    if x in s {
      SplitSize(s, {x});
    } else {
      assert s - {x} == s;
    }
  }

  /** Who signs in holds a cluster afterwards, unless none was free. */
  lemma SignedIn(s: State, a: Request, s': State, u: nat)
    requires Inv(s) && Step(s, a, s') && SignsIn(s, a, u)
    ensures u in s'.users && s'.clusters == s.clusters
    ensures s'.users[u].cluster.None? ==> Free(s'.users, s'.clusters) == {}
    ensures u in s.users && s.users[u].cluster.Some? ==> s'.users[u].cluster == s.users[u].cluster
  {
    assert u !in s.users || u < s.nextUser;
    forall v | v in s.users ensures v in s'.users && (v != u ==> s'.users[v] == s.users[v]) {
    }
    if s'.users[u].cluster.None? {
      assert Free(s.users, s.clusters) == {};
      assert Held(s'.users) == Held(s.users);
    }
  }

  // Stability.

  predicate Deletes(a: Request, u: nat, c: nat) {
    || (a.DeleteUser? && a.granted && a.user == u)
    || (a.DeleteCluster? && a.granted && a.cluster == c)
  }

  predicate Holds(s: State, u: nat, c: nat) {
    u in s.users && s.users[u].cluster == Some(c)
  }

  /** A user keeps its cluster exactly until the user or the cluster is deleted. */
  lemma HoldingEndsOnlyByDeletion(s: State, a: Request, s': State, u: nat, c: nat)
    requires Inv(s) && Step(s, a, s') && Holds(s, u, c)
    ensures Holds(s', u, c) <==> !Deletes(a, u, c)
  {
    assert u < s.nextUser && c in s.clusters;
  }

  lemma {:induction false} HoldingLastsThroughRun(states: seq<State>, requests: seq<Request>, i: nat, j: nat, u: nat,
      c: nat)
    requires Execution(states, requests) && i <= j < |states| && Holds(states[i], u, c)
    requires forall k :: i <= k < j ==> !Deletes(requests[k], u, c)
    ensures Holds(states[j], u, c)
  {
    if i < j {
      HoldingLastsThroughRun(states, requests, i, j - 1, u, c);
      ReachableStatesAreSafe(states, requests, j - 1);
      HoldingEndsOnlyByDeletion(states[j - 1], requests[j - 1], states[j - 1 + 1], u, c);
    }
  }

  // What is free, and for how long.

  predicate IsFree(s: State, c: nat) {
    c in Free(s.users, s.clusters)
  }

  /** The request brings cluster `c` into the portal. */
  predicate Adds(s: State, a: Request, c: nat) {
    && a.AddCluster? && a.granted && a.row.Some? && c == s.nextCluster
    && forall i :: i in s.clusters ==>
         && s.clusters[i].ip != a.row.value.ip
         && (s.clusters[i].namespace != a.row.value.namespace || s.clusters[i].instance != a.row.value.instance)
  }

  lemma FreeIs(s: State, c: nat)
    ensures IsFree(s, c) <==> c in s.clusters && forall u :: u in s.users ==> !Holds(s, u, c)
  {
    forall u | u in s.users && Holds(s, u, c) ensures c in Held(s.users) {
    }
  }

  lemma FreedFromHolder(s: State, a: Request, s': State, u: nat, c: nat)
    requires Inv(s) && Step(s, a, s') && u in s.users && Holds(s, u, c)
    ensures IsFree(s', c) <==> a.DeleteUser? && a.granted && a.user == u
  {
    FreeIs(s', c);
    HoldingEndsOnlyByDeletion(s, a, s', u, c);
    forall v | v in s.users && v != u ensures !Holds(s, v, c) {
    }
  }

  lemma FreedFromNowhere(s: State, a: Request, s': State, c: nat)
    requires Inv(s) && Step(s, a, s') && c !in s.clusters
    ensures IsFree(s', c) <==> Adds(s, a, c)
  {
    FreeIs(s', c);
    assert forall u :: u in s.users ==> !Holds(s, u, c);
  }

  /** A cluster becomes free exactly when it is added or the user that holds it is deleted. */
  lemma FreedExactly(s: State, a: Request, s': State, c: nat)
    requires Inv(s) && Step(s, a, s')
    ensures !IsFree(s, c) && IsFree(s', c) <==> Adds(s, a, c) || (a.DeleteUser? && a.granted && Holds(s, a.user, c))
  {
    FreeIs(s, c);
    if u: nat :| u in s.users && Holds(s, u, c) {
      FreedFromHolder(s, a, s', u, c);
    } else if c !in s.clusters {
      FreedFromNowhere(s, a, s', c);
    }
  }

  /** A free cluster stops being free exactly when it is deleted or goes to a user who
      signs in. */
  lemma TakenExactly(s: State, a: Request, s': State, c: nat)
    requires Inv(s) && Step(s, a, s') && IsFree(s, c)
    ensures !IsFree(s', c) <==>
            (a.DeleteCluster? && a.granted && a.cluster == c) || exists u :: SignsIn(s, a, u) && Holds(s', u, c)
  {
    FreeIs(s, c);
    FreeIs(s', c);
  }

  // Each part of a user, and each cluster, changes only where it should.

  /** The request creates the first administrator. */
  predicate MakesAdmin(s: State, a: Request) {
    a.CreateAdmin? && a.granted && forall u :: u in s.users ==> !s.users[u].isAdmin
  }

  predicate DeletesUser(a: Request, u: nat) {
    a.DeleteUser? && a.granted && a.user == u
  }

  /** The request brings in a user with this email. */
  predicate Enrols(s: State, a: Request, email: string) {
    && (forall u :: u in s.users ==> s.users[u].email != email)
    && ((a.Register? && a.granted && a.email == email) || (MakesAdmin(s, a) && a.email == email))
  }

  /** Users come by registration or as administrators, and go when they are deleted. Emails
      are for ever. */
  lemma UsersChangeExactly(s: State, a: Request, s': State, u: nat)
    requires Inv(s) && Step(s, a, s')
    ensures u in s.users ==> (u in s'.users <==> !DeletesUser(a, u))
    ensures u in s.users && u in s'.users ==> s'.users[u].email == s.users[u].email
    ensures u !in s.users && u in s'.users ==> u == s.nextUser && Enrols(s, a, s'.users[u].email)
    ensures (exists email :: Enrols(s, a, email)) ==> s.nextUser in s'.users && s.nextUser !in s.users
  {
    assert s.nextUser !in s.users;
    if email :| Enrols(s, a, email) {
      assert !HasEmail(s.users, email);
    }
  }

  /** Who is an administrator was one, or has just been made the first one. */
  lemma AdminsAreExactly(s: State, a: Request, s': State, u: nat)
    requires Inv(s) && Step(s, a, s')
    ensures u in s'.users && s'.users[u].isAdmin <==>
            || (u in s.users && s.users[u].isAdmin && !DeletesUser(a, u))
            || (MakesAdmin(s, a) && u in s'.users && s'.users[u].email == a.email)
  {
    assert s.nextUser !in s.users;
    if MakesAdmin(s, a) {
      NewAdminIs(s, a, s', u);
    }
  }

  lemma NewAdminIs(s: State, a: Request, s': State, u: nat)
    requires Inv(s) && Step(s, a, s') && MakesAdmin(s, a)
    ensures u in s'.users ==> (s'.users[u].isAdmin <==> s'.users[u].email == a.email)
    ensures exists v :: v in s'.users && s'.users[v].isAdmin
  {
    if HasEmail(s.users, a.email) {
      var v :| v in s.users && s.users[v].email == a.email
               && s' == s.(users := s.users[v := s.users[v].(isAdmin := true)]);
      assert v in s'.users && s'.users[v].isAdmin;
    } else {
      assert s.nextUser in s'.users && s'.users[s.nextUser].isAdmin;
    }
  }

  /** A user has to reset the password exactly from an administrator's reset to its own. */
  lemma ResetsAreExactly(s: State, a: Request, s': State, u: nat)
    requires Inv(s) && Step(s, a, s') && u in s'.users
    ensures s'.users[u].mustReset <==>
            || (a.ResetPassword? && a.granted && a.hasCode && a.user == u)
            || (u in s.users && s.users[u].mustReset
                && !(a.ResetOwnPassword? && a.valid && a.email == s.users[u].email))
  {
    assert s.nextUser !in s.users;
  }

  /** The address of a user is where it last signed in from. */
  lemma AddressesAreExactly(s: State, a: Request, s': State, u: nat)
    requires Inv(s) && Step(s, a, s') && u in s'.users
    ensures s'.users[u].lastIp ==
            if SignsIn(s, a, u) then Some(a.ip) else if u in s.users then s.users[u].lastIp else None
  {
    assert s.nextUser !in s.users;
  }

  /** Who comes to hold a cluster signs in and takes a free one. */
  lemma HoldingBeginsAtSignIn(s: State, a: Request, s': State, u: nat, c: nat)
    requires Inv(s) && Step(s, a, s') && Holds(s', u, c) && !Holds(s, u, c)
    ensures SignsIn(s, a, u) && IsFree(s, c)
  {
    assert s.nextUser !in s.users;
  }

  /** Clusters come as they are added and go when they are deleted; their data stay. */
  lemma ClustersChangeExactly(s: State, a: Request, s': State, c: nat)
    requires Inv(s) && Step(s, a, s')
    ensures c in s'.clusters <==>
            (c in s.clusters && !(a.DeleteCluster? && a.granted && a.cluster == c)) || Adds(s, a, c)
    ensures c in s'.clusters ==> s'.clusters[c] == if c in s.clusters then s.clusters[c] else a.row.value
  {
    assert s.nextCluster !in s.clusters;
  }

  /** As long as nobody asks for one, there is no administrator. */
  lemma {:induction false} NoAdminUnasked(states: seq<State>, requests: seq<Request>, i: nat, u: nat)
    requires Execution(states, requests) && i < |states| && u in states[i].users
    requires forall k :: 0 <= k < i ==> !(requests[k].CreateAdmin? && requests[k].granted)
    ensures !states[i].users[u].isAdmin
  {
    if i > 0 {
      ReachableStatesAreSafe(states, requests, i - 1);
      AdminsAreExactly(states[i - 1], requests[i - 1], states[i - 1 + 1], u);
      if u in states[i - 1].users {
        NoAdminUnasked(states, requests, i - 1, u);
      }
    }
  }

  /** There is never more than one administrator. */
  lemma {:induction false} OneAdminAtMost(states: seq<State>, requests: seq<Request>, i: nat, u: nat, v: nat)
    requires Execution(states, requests) && i < |states| && u in states[i].users && v in states[i].users
    requires states[i].users[u].isAdmin && states[i].users[v].isAdmin
    ensures u == v
  {
    if i > 0 {
      var s, a, s' := states[i - 1], requests[i - 1], states[i - 1 + 1];
      ReachableStatesAreSafe(states, requests, i - 1);
      ReachableStatesAreSafe(states, requests, i);
      AdminsAreExactly(s, a, s', u);
      AdminsAreExactly(s, a, s', v);
      if !MakesAdmin(s, a) {
        OneAdminAtMost(states, requests, i - 1, u, v);
      }
    }
  }
}
