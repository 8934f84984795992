/**
 What holds of the visit tracker across its actions: the events a page
 session can deliver, the id invariant they keep once `ngOnInit` has run,
 the append-only growth of the data, how each action moves the visit total,
 and how the status text and the colour classes line up.
 */
module VisitTrackerProofs {
  import opened Text
  import opened VisitTracker

  /** Everything the page lets a user do after start-up. */
  datatype Event =
    | OpenDialog
    | CancelDialog
    | TypeName(text: string)
    | SubmitUser
    | ClickAddVisit(userId: string, timestamp: nat)

  function Step(s: State, e: Event): State {
    match e
    case OpenDialog => OpenAddUserModal(s)
    case CancelDialog => CancelAddUserModal(s)
    case TypeName(text) => EditNewUserName(s, text)
    case SubmitUser => AddUser(s)
    case ClickAddVisit(userId, timestamp) => AddVisit(s, userId, timestamp)
  }

  function Run(s: State, events: seq<Event>): State
    decreases |events|
  {
    if events == [] then s else Run(Step(s, events[0]), events[1..])
  }

  /** The state a session is in after start-up and then `events`. */
  function Session(events: seq<Event>): State {
    Run(NgOnInit(Empty), events)
  }

  /** The user at index `i` has id `i + 1`, and each of its visits names it. */
  predicate UserValidAt(users: seq<User>, i: int)
    requires 0 <= i < |users|
  {
    && users[i].id == NatToDecimal(i + 1)
    && forall j :: 0 <= j < |users[i].visits| ==> users[i].visits[j].userId == users[i].id
  }

  predicate Valid(s: State) {
    forall i :: 0 <= i < |s.users| ==> UserValidAt(s.users, i)
  }

  /** `t` only adds to `s`: no user is removed, renamed or re-numbered, and
      each user's visits in `s` are a prefix of its visits in `t`. */
  predicate Extends(s: State, t: State) {
    && |s.users| <= |t.users|
    && forall i :: 0 <= i < |s.users| ==>
         && t.users[i].id == s.users[i].id
         && t.users[i].name == s.users[i].name
         && s.users[i].visits <= t.users[i].visits
  }

  lemma InitFromEmpty()
    ensures var s := NgOnInit(Empty);
      && |s.users| == 1
      && s.users[0].id == "1" && s.users[0].name == "Aldy" && s.users[0].visits == []
      && !s.showAddUserModal && s.newUserName == ""
      && Valid(s)
  {
  }

  /** `ngOnInit` appends without looking, so running it a second time would
      give two users the id "1"; the id invariant depends on it running once. */
  lemma InitTwiceDuplicatesId()
    ensures var s := NgOnInit(NgOnInit(Empty));
      |s.users| == 2 && s.users[0].id == s.users[1].id == "1"
  {
  }

  lemma StepKeepsValid(s: State, e: Event)
    requires Valid(s)
    ensures Valid(Step(s, e))
    ensures Extends(s, Step(s, e))
  {
    var t := Step(s, e);
    match e
    case SubmitUser =>
      if !AllWhitespace(s.newUserName) {
        forall i | 0 <= i < |t.users| ensures UserValidAt(t.users, i) {
          if i < |s.users| {
            assert t.users[i] == t.users[..|s.users|][i];
            assert UserValidAt(s.users, i);
          }
        }
      }
    case ClickAddVisit(userId, timestamp) =>
      if FindUser(s.users, userId).Some? {
        var k := FindUser(s.users, userId).value;
        assert IsFirstMatch(s.users, userId, k);
        forall i | 0 <= i < |t.users| ensures UserValidAt(t.users, i) {
          assert UserValidAt(s.users, i);
          if i == k {
            var vs := t.users[i].visits;
            forall j | 0 <= j < |vs| ensures vs[j].userId == t.users[i].id {
              if j < |s.users[i].visits| {
                assert vs[j] == s.users[i].visits[j];
              }
            }
          }
        }
      }
    case OpenDialog =>
    case CancelDialog =>
    case TypeName(_) =>
  }

  lemma ExtendsTransitive(s: State, t: State, u: State)
    requires Extends(s, t) && Extends(t, u)
    ensures Extends(s, u)
  {
  }

  /** Any run of events from a valid state stays valid and only adds data. */
  lemma {:induction false} RunKeepsValid(s: State, events: seq<Event>)
    requires Valid(s)
    ensures Valid(Run(s, events))
    ensures Extends(s, Run(s, events))
    decreases |events|
  {
    if events != [] {
      var s1 := Step(s, events[0]);
      StepKeepsValid(s, events[0]);
      RunKeepsValid(s1, events[1..]);
      ExtendsTransitive(s, s1, Run(s1, events[1..]));
    }
  }

  /** In a valid state no two users share an id. */
  lemma ValidIdsDistinct(s: State)
    requires Valid(s)
    ensures forall i, j :: 0 <= i < |s.users| && 0 <= j < |s.users| && i != j ==>
      s.users[i].id != s.users[j].id
  {
    forall i, j | 0 <= i < |s.users| && 0 <= j < |s.users| && s.users[i].id == s.users[j].id
      ensures i == j
    {
      assert UserValidAt(s.users, i) && UserValidAt(s.users, j);
      NatToDecimalInjective(i + 1, j + 1);
    }
  }

  /** After start-up and any events, the user at index `i` has id `i + 1`,
      ids are pairwise distinct, and the seeded user is still first. */
  lemma SessionInvariant(events: seq<Event>)
    ensures var s := Session(events);
      && Valid(s)
      && |s.users| >= 1
      && s.users[0].id == "1" && s.users[0].name == "Aldy"
      && (forall i :: 0 <= i < |s.users| ==> s.users[i].id == NatToDecimal(i + 1))
      && (forall i, j :: 0 <= i < |s.users| && 0 <= j < |s.users| && i != j ==>
            s.users[i].id != s.users[j].id)
  {
    InitFromEmpty();
    var s := Session(events);
    RunKeepsValid(NgOnInit(Empty), events);
    ValidIdsDistinct(s);
    forall i | 0 <= i < |s.users| ensures s.users[i].id == NatToDecimal(i + 1) {
      assert UserValidAt(s.users, i);
    }
  }

  /** In a valid state, the "Add Visit" button of the user at index `k - 1`
      (which passes id `k`) reaches exactly that user; an id outside
      `1..|users|` reaches nobody. */
  lemma AddVisitTargetsIndex(s: State, k: nat)
    requires Valid(s)
    ensures 1 <= k <= |s.users| ==> IsFirstMatch(s.users, NatToDecimal(k), k - 1)
    ensures !(1 <= k <= |s.users|) ==>
      forall j :: 0 <= j < |s.users| ==> s.users[j].id != NatToDecimal(k)
  {
    forall j | 0 <= j < |s.users|
      ensures s.users[j].id == NatToDecimal(k) <==> j == k - 1
    {
      assert UserValidAt(s.users, j);
      NatToDecimalInjective(j + 1, k);
    }
  }

  lemma {:induction false} SumVisitsAppend(users: seq<User>, u: User)
    ensures SumVisits(users + [u]) == SumVisits(users) + u.VisitCount()
  {
    if users != [] {
      assert (users + [u])[1..] == users[1..] + [u];
      SumVisitsAppend(users[1..], u);
    }
  }

  lemma {:induction false} SumVisitsUpdate(users: seq<User>, i: int, u: User)
    requires 0 <= i < |users|
    ensures SumVisits(users[i := u]) + users[i].VisitCount() == SumVisits(users) + u.VisitCount()
  {
    if i > 0 {
      assert users[i := u][1..] == users[1..][i - 1 := u];
      SumVisitsUpdate(users[1..], i - 1, u);
    }
  }

  /** A visit for an id some user has raises the total by exactly one; an
      unknown id leaves it as it was. */
  lemma AddVisitTotal(s: State, userId: string, timestamp: nat)
    ensures (exists j :: 0 <= j < |s.users| && s.users[j].id == userId) ==>
      TotalVisits(AddVisit(s, userId, timestamp).users) == TotalVisits(s.users) + 1
    ensures (forall j :: 0 <= j < |s.users| ==> s.users[j].id != userId) ==>
      TotalVisits(AddVisit(s, userId, timestamp).users) == TotalVisits(s.users)
  {
    match FindUser(s.users, userId)
    case None =>
    case Some(k) =>
      var u := s.users[k];
      SumVisitsUpdate(s.users, k, u.(visits := u.visits + [Visit(timestamp, userId)]));
  }

  /** Adding a user, or failing to, never changes the total. */
  lemma AddUserTotal(s: State)
    ensures TotalVisits(AddUser(s).users) == TotalVisits(s.users)
  {
    if !AllWhitespace(s.newUserName) {
      SumVisitsAppend(s.users, NewUser(s.users, s.newUserName));
    }
  }

  /** A visit for an unknown id leaves every user's count unchanged. */
  lemma AddVisitUnknownIdKeepsCounts(s: State, userId: string, timestamp: nat)
    requires forall j :: 0 <= j < |s.users| ==> s.users[j].id != userId
    ensures var t := AddVisit(s, userId, timestamp);
      |t.users| == |s.users| &&
      forall j :: 0 <= j < |s.users| ==> t.users[j].VisitCount() == s.users[j].VisitCount()
  {
  }

  /** How alarming a status text is, lowest first. */
  function Severity(message: string): nat {
    if message == "No visits today" then 0
    else if message == "Normal frequency" then 1
    else if message == "Above average frequency" then 2
    else 3
  }

  /** More visits never give a calmer status. */
  lemma StatusMonotone(a: nat, b: nat)
    requires a <= b
    ensures Severity(StatusMessage(a)) <= Severity(StatusMessage(b))
  {
  }

  /** For a real count (never negative) the colour class agrees with the
      status text: green for the two calm texts, yellow for "above
      average", red for the warning. */
  lemma ColourMatchesStatus(n: int)
    ensures n >= 0 ==>
      && ("text-green-600" in ColourClasses(n) <==>
            StatusMessage(n) in {"No visits today", "Normal frequency"})
      && ("text-yellow-600" in ColourClasses(n) <==>
            StatusMessage(n) == "Above average frequency")
      && ("text-red-600" in ColourClasses(n) <==>
            StatusMessage(n) == "Medical attention recommended")
  {
  }

  /** Two users with the same non-zero count: the later one is reported. */
  lemma TieGoesToLaterUser(v: Visit)
    ensures MostFrequentVisitor([User("1", "Aldy", [v, v]), User("2", "Bob", [v, v])])
      == "Bob (2 visits)"
  {
  }

  /** Surrounding white space is dropped from a new user's name, and the
      new user gets the next id. */
  lemma AddUserTrimsName()
    ensures var s := AddUser(EditNewUserName(NgOnInit(Empty), "  Bob  "));
      |s.users| == 2 && s.users[1].id == "2" && s.users[1].name == "Bob"
  {
    var name := "  Bob  ";
    assert IsTrimCut(name, 2, 5);
    TrimMatchesCut(name, 2, 5);
    assert Trim(name) == "Bob";
    var s0 := EditNewUserName(NgOnInit(Empty), name);
    assert |s0.users| == 1 && s0.newUserName == name;
    assert NatToDecimal(2) == "2";
  }

  /** A name of blanks adds nobody and leaves the dialog open. */
  lemma AddUserRejectsBlankName()
    ensures var s := OpenAddUserModal(EditNewUserName(NgOnInit(Empty), "   "));
      AddUser(s) == s && AddUser(s).showAddUserModal
  {
  }
}
