/**
 The `App` component of the toilet visit tracker: an in-memory list of users,
 each with an append-only list of visits, the two fields behind the
 "Add User" dialog, the actions that change them and the summary values the
 page derives from them.  Every action is a pure function from the old state
 to the new one; the clock reading a visit records is passed in.
 */
module VisitTracker {
  import opened Text

  datatype Option<T> = None | Some(value: T)

  /** One recorded visit.  The time stamp is an opaque reading of the clock. */
  datatype Visit = Visit(timestamp: nat, userId: string)

  datatype User = User(id: string, name: string, visits: seq<Visit>) {
    /** The number shown on the user's card, `visits.length`. */
    function VisitCount(): nat {
      |visits|
    }
  }

  /** The component's fields: `users`, `showAddUserModal`, `newUserName`. */
  datatype State = State(users: seq<User>, showAddUserModal: bool, newUserName: string)

  /** The field initialisers: no users, dialog closed, empty name. */
  const Empty := State([], false, "")

  /** The user `ngOnInit` seeds the list with. */
  const Seed := User("1", "Aldy", [])

  /** `ngOnInit`: appends the seed user to whatever list is there. */
  function NgOnInit(s: State): (t: State)
    ensures |t.users| == |s.users| + 1
    ensures t.users[..|s.users|] == s.users
    ensures t.users[|s.users|].id == "1" && t.users[|s.users|].name == "Aldy"
    ensures t.users[|s.users|].visits == []
    ensures t.showAddUserModal == s.showAddUserModal && t.newUserName == s.newUserName
  {
    s.(users := s.users + [Seed])
  }

  /** The header's "Add User" button: opens the dialog and nothing else. */
  function OpenAddUserModal(s: State): (t: State)
    ensures t.showAddUserModal
    ensures t.users == s.users && t.newUserName == s.newUserName
  {
    s.(showAddUserModal := true)
  }

  /** The dialog's "Cancel" button: closes the dialog.  The text typed so
      far stays in `newUserName`. */
  function CancelAddUserModal(s: State): (t: State)
    ensures !t.showAddUserModal
    ensures t.users == s.users && t.newUserName == s.newUserName
  {
    s.(showAddUserModal := false)
  }

  /** The two-way binding of the name field writes what was typed. */
  function EditNewUserName(s: State, text: string): (t: State)
    ensures t.newUserName == text
    ensures t.users == s.users && t.showAddUserModal == s.showAddUserModal
  {
    s.(newUserName := text)
  }

  /** The user `addUser` appends to `users`: the next id and the trimmed name. */
  function NewUser(users: seq<User>, name: string): User {
    User(NatToDecimal(|users| + 1), Trim(name), [])
  }

  /** `addUser`: a blank name (empty once trimmed) changes nothing; any other
      name appends one user whose id is the decimal rendering of the new
      length, then clears the field and closes the dialog. */
  function AddUser(s: State): (t: State)
    ensures AllWhitespace(s.newUserName) ==> t == s
    ensures !AllWhitespace(s.newUserName) ==>
      && |t.users| == |s.users| + 1
      && t.users[..|s.users|] == s.users
      && t.users[|s.users|].id == NatToDecimal(|t.users|)
      && t.users[|s.users|].name == Trim(s.newUserName)
      && t.users[|s.users|].name != []
      && t.users[|s.users|].visits == []
      && t.newUserName == ""
      && !t.showAddUserModal
  {
    if Trim(s.newUserName) != "" then
      State(s.users + [NewUser(s.users, s.newUserName)], false, "")
    else
      s
  }

  /** `i` is the index `Array.prototype.find` stops at when looking for `id`. */
  predicate IsFirstMatch(users: seq<User>, id: string, i: int) {
    && 0 <= i < |users|
    && users[i].id == id
    && forall j :: 0 <= j < i ==> users[j].id != id
  }

  /** `users.find(u => u.id === id)`, as the index of the user found. */
  function FindUser(users: seq<User>, id: string): (r: Option<nat>)
    ensures r.Some? ==> IsFirstMatch(users, id, r.value)
    ensures r.None? <==> forall j :: 0 <= j < |users| ==> users[j].id != id
  {
    if users == [] then None
    else if users[0].id == id then Some(0)
    else match FindUser(users[1..], id)
      case None => None
      case Some(i) => Some(i + 1)
  }

  /** `addVisit`: appends one visit, stamped `timestamp` and carrying `userId`,
      to the first user with that id; every other user and every earlier
      visit is left alone.  An id no user has changes nothing. */
  function AddVisit(s: State, userId: string, timestamp: nat): (t: State)
    ensures (forall j :: 0 <= j < |s.users| ==> s.users[j].id != userId) ==> t == s
    ensures forall i {:trigger IsFirstMatch(s.users, userId, i)} :: IsFirstMatch(s.users, userId, i) ==>
      && |t.users| == |s.users|
      && (forall j :: 0 <= j < |s.users| && j != i ==> t.users[j] == s.users[j])
      && t.users[i].id == s.users[i].id
      && t.users[i].name == s.users[i].name
      && t.users[i].visits == s.users[i].visits + [Visit(timestamp, userId)]
      && t.showAddUserModal == s.showAddUserModal
      && t.newUserName == s.newUserName
  {
    match FindUser(s.users, userId)
    case None => s
    case Some(i) =>
      var u := s.users[i];
      s.(users := s.users[i := u.(visits := u.visits + [Visit(timestamp, userId)])])
  }

  /** `getStatusMessage`: the text under a user's card for a visit count.
      Each of the four texts is given for exactly its range of counts; a
      negative count falls through the first test into "Normal frequency". */
  function StatusMessage(visitCount: int): (r: string)
    ensures r == "No visits today" <==> visitCount == 0
    ensures r == "Normal frequency" <==> visitCount != 0 && visitCount <= 3
    ensures r == "Above average frequency" <==> 4 <= visitCount <= 5
    ensures r == "Medical attention recommended" <==> visitCount >= 6
  {
    if visitCount == 0 then "No visits today"
    else if visitCount <= 3 then "Normal frequency"
    else if visitCount <= 5 then "Above average frequency"
    else "Medical attention recommended"
  }

  /** The classes the template's `ngClass` map switches on for a visit count:
      always exactly one, green up to 3, yellow for 4 and 5, red above. */
  function ColourClasses(visitCount: int): (r: set<string>)
    ensures |r| == 1
    ensures "text-green-600" in r <==> visitCount <= 3
    ensures "text-yellow-600" in r <==> 4 <= visitCount <= 5
    ensures "text-red-600" in r <==> visitCount >= 6
  {
    (if visitCount <= 3 then {"text-green-600"} else {})
    + (if visitCount > 3 && visitCount <= 5 then {"text-yellow-600"} else {})
    + (if visitCount > 5 then {"text-red-600"} else {})
  }

  /** Sum of the visit counts, first user first. */
  function SumVisits(users: seq<User>): nat {
    if users == [] then 0 else users[0].VisitCount() + SumVisits(users[1..])
  }

  /** The callback of `getTotalVisits`' `reduce`, folded over `users` from
      the running total `acc`. */
  function ReduceTotal(acc: nat, users: seq<User>): (r: nat)
    ensures r == acc + SumVisits(users)
    decreases |users|
  {
    if users == [] then acc
    else ReduceTotal(acc + users[0].VisitCount(), users[1..])
  }

  /** `getTotalVisits`: the reduction started from 0. */
  function TotalVisits(users: seq<User>): (r: nat)
    ensures r == SumVisits(users)
  {
    ReduceTotal(0, users)
  }

  /** `k` is the user the most-frequent reduction settles on: nobody has more
      visits, and everybody after `k` has strictly fewer. */
  predicate IsLastMaximal(users: seq<User>, k: int) {
    && 0 <= k < |users|
    && (forall j :: 0 <= j < |users| ==> users[j].VisitCount() <= users[k].VisitCount())
    && (forall j :: k < j < |users| ==> users[j].VisitCount() < users[k].VisitCount())
  }

  /** `getMostFrequentVisitor`'s `reduce` with no initial value, as the index
      of the user it returns.  Its callback keeps `prev` only when `prev` has
      strictly more visits, so on a tie the later user wins. */
  function MostFrequentIndex(users: seq<User>): (k: nat)
    requires |users| > 0
    ensures IsLastMaximal(users, k)
  {
    if |users| == 1 then 0
    else
      var prev := MostFrequentIndex(users[..|users| - 1]);
      var current := |users| - 1;
      if users[prev].VisitCount() > users[current].VisitCount() then prev else current
  }

  /** The summary line for a user: the name, then " (", then the visit count
      in decimal with no leading zero, then " visits)". */
  function VisitorLine(u: User): (r: string)
    ensures |r| >= |u.name| + 11
    ensures r[..|u.name|] == u.name
    ensures r[|u.name|..|u.name| + 2] == " (" && r[|r| - 8..] == " visits)"
    ensures AllDigits(r[|u.name| + 2..|r| - 8])
    ensures DecimalValue(r[|u.name| + 2..|r| - 8]) == u.VisitCount()
    ensures r[|u.name| + 2] == '0' ==> u.VisitCount() == 0 && |r| == |u.name| + 11
  {
    var digits := NatToDecimal(u.VisitCount());
    var r := u.name + " (" + digits + " visits)";
    assert r[|u.name| + 2..|r| - 8] == digits;
    DecimalRoundTrip(u.VisitCount());
    r
  }

  /** `getMostFrequentVisitor`. */
  function MostFrequentVisitor(users: seq<User>): (r: string)
    ensures r == "No users" <==> users == []
    ensures r == "No visits yet" <==>
      users != [] && forall j :: 0 <= j < |users| ==> users[j].VisitCount() == 0
    ensures forall k {:trigger IsLastMaximal(users, k)} ::
      IsLastMaximal(users, k) && users[k].VisitCount() > 0 ==> r == VisitorLine(users[k])
  {
    if |users| == 0 then "No users"
    else
      var k := MostFrequentIndex(users);
      LastMaximalUnique(users, k);
      if users[k].VisitCount() == 0 then "No visits yet"
      else
        var r := VisitorLine(users[k]);
        assert r[|r| - 1] == ')';
        r
  }

  /** There is only one user the most-frequent reduction can settle on. */
  lemma LastMaximalUnique(users: seq<User>, k: int)
    requires IsLastMaximal(users, k)
    ensures forall k' :: IsLastMaximal(users, k') ==> k' == k
  {
    forall k' | IsLastMaximal(users, k') ensures k' == k {
      assert users[k'].VisitCount() == users[k].VisitCount();
    }
  }

  /** What `getAverageVisits` shows: the literal "0" for an empty list,
      otherwise `total / count` rendered by `toFixed(1)`, kept here as the
      pair of integers it is computed from. */
  datatype Average = Literal(text: string) | OneDecimal(total: nat, count: nat)

  function AverageVisits(users: seq<User>): (r: Average)
    ensures r.Literal? <==> users == []
    ensures r.Literal? ==> r.text == "0"
    ensures r.OneDecimal? ==> r.total == SumVisits(users) && r.count == |users| > 0
  {
    if |users| == 0 then Literal("0")
    else OneDecimal(TotalVisits(users), |users|)
  }
}
