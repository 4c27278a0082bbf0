/** The two tables of the pot game, users and contributions, as values: their rows,
    the queries the request handlers run against them, and the table transformations
    the handlers perform. Every row id is its position in its table plus one (the
    tables use autoincrement keys and nothing in the game deletes a row). */
module Models {

  /** The fixed amount of every contribution. */
  const AMOUNT: int := 5

  /** A row of the user table. */
  datatype User = User(email: string, hasPot: bool, alive: bool, score: int)

  /** A row of the contribution table; `userId` refers to the contributing user. */
  datatype Contribution = Contribution(userId: int, amount: int, paid: bool)

  datatype Option<T> = None | Some(value: T)

  /** An integer the database driver can bind: a signed 64-bit value. Binding any other
      integer as a query or insert parameter raises. */
  predicate Int64(x: int)
  {
    -0x8000_0000_0000_0000 <= x < 0x8000_0000_0000_0000
  }

  /** The id of the row at position `index`. */
  function IdOf(index: nat): nat { index + 1 }

  /** `Model.query.get(id)`: the position of the row whose id is `id`, if there is one;
      an absent request field never finds a row. */
  function Lookup<T>(table: seq<T>, id: Option<int>): (r: Option<nat>)
    ensures r.Some? <==> id.Some? && exists k :: 0 <= k < |table| && IdOf(k) == id.value
    ensures r.Some? ==> r.value < |table| && IdOf(r.value) == id.value
  {
    if id.Some? && 1 <= id.value <= |table| then
      assert IdOf(id.value - 1) == id.value;
      Some(id.value - 1)
    else None
  }

  /** `filter_by(...).first()`: the first row satisfying `p`, if any. */
  function FirstWhere<T>(s: seq<T>, p: T -> bool): (r: Option<nat>)
    ensures r.Some? ==> r.value < |s| && p(s[r.value]) && forall j :: 0 <= j < r.value ==> !p(s[j])
    ensures r.None? ==> forall j :: 0 <= j < |s| ==> !p(s[j])
  {
    if |s| == 0 then None
    else if p(s[0]) then Some(0)
    else match FirstWhere(s[1..], p)
      case None => None
      case Some(k) => Some(k + 1)
  }

  /** The user holding the pot (`filter_by(has_pot=True).first()`). */
  function PotHolder(users: seq<User>): (r: Option<nat>)
    ensures r.Some? ==> r.value < |users| && users[r.value].hasPot
    ensures r.None? <==> forall j :: 0 <= j < |users| ==> !users[j].hasPot
  {
    FirstWhere(users, (u: User) => u.hasPot)
  }

  /** The user registered under `email` (`filter_by(email=email).first()`). */
  function FindByEmail(users: seq<User>, email: string): (r: Option<nat>)
    ensures r.Some? ==>
      r.value < |users| && users[r.value].email == email &&
      (forall j :: 0 <= j < r.value ==> users[j].email != email)
    ensures r.None? <==> forall j :: 0 <= j < |users| ==> users[j].email != email
  {
    FirstWhere(users, (u: User) => u.email == email)
  }

  /** At most one user holds the pot. */
  predicate AtMostOnePot(users: seq<User>)
  {
    forall i, j :: 0 <= i < |users| && 0 <= j < |users| && users[i].hasPot && users[j].hasPot ==> i == j
  }

  /** The game's invariant on the user table: exactly one user holds the pot as soon as
      there is any user at all. */
  predicate PotInvariant(users: seq<User>)
  {
    AtMostOnePot(users) && (|users| > 0 ==> PotHolder(users).Some?)
  }

  /** `User.get_others(id)`: every user but the one with id `id`, as (id, row) pairs
      in table order. */
  function Others(users: seq<User>, id: int): (r: seq<(nat, User)>)
    ensures forall k :: 0 <= k < |r| ==>
      1 <= r[k].0 <= |users| && r[k].0 != id && r[k].1 == users[r[k].0 - 1]
    ensures forall k, l :: 0 <= k < l < |r| ==> r[k].0 < r[l].0
    ensures |r| == if 1 <= id <= |users| then |users| - 1 else |users|
  {
    if |users| == 0 then []
    else
      var n := |users|;
      Others(users[..n - 1], id) + (if n != id then [(n, users[n - 1])] else [])
  }

  /** `get_others(id)` leaves out no user but the one with id `id`. */
  lemma {:induction false} OthersIsComplete(users: seq<User>, id: int, j: int)
    requires 1 <= j <= |users| && j != id
    ensures exists k :: 0 <= k < |Others(users, id)| && Others(users, id)[k].0 == j
  {
    var n := |users|;
    var r := Others(users, id);
    var front := Others(users[..n - 1], id);
    if j == n {
      assert r[|r| - 1].0 == j;
    } else {
      OthersIsComplete(users[..n - 1], id, j);
      var k :| 0 <= k < |front| && front[k].0 == j;
      assert r[k] == front[k];
    }
  }

  /** No two users share an email. */
  predicate DistinctEmails(users: seq<User>)
  {
    forall i, j :: 0 <= i < |users| && 0 <= j < |users| && users[i].email == users[j].email ==> i == j
  }

  /** The row a new registration under `email` adds: only the very first user gets the
      pot; every user starts alive with score 0. */
  function NewUser(users: seq<User>, email: string): User
  {
    User(email, |users| == 0, true, 0)
  }

  /** A fresh, unpaid contribution of the fixed amount by user `userId`. */
  function NewContribution(userId: int): Contribution
  {
    Contribution(userId, AMOUNT, false)
  }

  /** Every contribution has the fixed amount. */
  predicate AllOfAmount(cs: seq<Contribution>)
  {
    forall k :: 0 <= k < |cs| ==> cs[k].amount == AMOUNT
  }

  /** Sum of the amounts of the unpaid contributions. */
  function UnpaidTotal(cs: seq<Contribution>): int
  {
    if |cs| == 0 then 0
    else UnpaidTotal(cs[..|cs| - 1]) + (if cs[|cs| - 1].paid then 0 else cs[|cs| - 1].amount)
  }

  /** Number of unpaid contributions. */
  function UnpaidCount(cs: seq<Contribution>): nat
  {
    if |cs| == 0 then 0
    else UnpaidCount(cs[..|cs| - 1]) + (if cs[|cs| - 1].paid then 0 else 1)
  }

  /** Sum of all users' scores. */
  function TotalScore(users: seq<User>): int
  {
    if |users| == 0 then 0 else TotalScore(users[..|users| - 1]) + users[|users| - 1].score
  }

  /** The contribution table after settlement: every contribution is paid, and nothing
      else about any of them changes. */
  function PayAll(cs: seq<Contribution>): (r: seq<Contribution>)
    ensures |r| == |cs|
    ensures forall k :: 0 <= k < |r| ==>
      r[k].paid && r[k].userId == cs[k].userId && r[k].amount == cs[k].amount
    ensures forall k :: 0 <= k < |r| && cs[k].paid ==> r[k] == cs[k]
  {
    seq(|cs|, k requires 0 <= k < |cs| => cs[k].(paid := true))
  }

  /** The user table after `d` points are credited to user `h`: only that user's score
      changes, by exactly `d`. */
  function Credit(users: seq<User>, h: nat, d: int): (r: seq<User>)
    requires h < |users|
    ensures |r| == |users|
    ensures r[h].score == users[h].score + d
    ensures r[h] == users[h].(score := r[h].score)
    ensures forall k :: 0 <= k < |r| && k != h ==> r[k] == users[k]
  {
    users[h := users[h].(score := users[h].score + d)]
  }

  /** The pot rule of a hit by user `u` on user `t`: when the target holds the pot, the
      pot moves to the hitter; otherwise nothing changes. No score changes. */
  function Transfer(users: seq<User>, u: nat, t: nat): (r: seq<User>)
    requires u < |users| && t < |users|
    ensures |r| == |users|
    ensures r[u].hasPot == (users[u].hasPot || users[t].hasPot)
    ensures u != t && users[t].hasPot ==> !r[t].hasPot
    ensures !users[t].hasPot ==> r == users
    ensures forall k :: 0 <= k < |r| && k != u && k != t ==> r[k] == users[k]
    ensures forall k :: 0 <= k < |r| ==> r[k] == users[k].(hasPot := r[k].hasPot)
  {
    if users[t].hasPot then
      users[t := users[t].(hasPot := false)][u := users[u].(hasPot := true)]
    else users
  }

  /** How a contribution table may evolve: rows are only added, the user and amount of a
      row never change, and a paid row never becomes unpaid again. */
  ghost predicate Follows(before: seq<Contribution>, after: seq<Contribution>)
  {
    |before| <= |after| &&
    forall k :: 0 <= k < |before| ==>
      after[k].userId == before[k].userId && after[k].amount == before[k].amount &&
      (before[k].paid ==> after[k].paid)
  }

  // ---------------------------------------------------------------------------
  // Lemmas about the pot

  /** Under the invariant the pot holder found by the query is the one and only user
      holding the pot. */
  lemma PotHolderIsUnique(users: seq<User>, i: nat)
    requires PotInvariant(users)
    requires i < |users|
    ensures users[i].hasPot <==> PotHolder(users) == Some(i)
  {
  }

  /** Settlement finds no pot holder exactly when there are no users. */
  lemma NoPotHolderIffEmpty(users: seq<User>)
    requires PotInvariant(users)
    ensures PotHolder(users).None? <==> |users| == 0
  {
  }

  /** Registration keeps the invariant: the pot is granted only to the first user. */
  lemma RegisterKeepsPotInvariant(users: seq<User>, email: string)
    requires PotInvariant(users)
    ensures PotInvariant(users + [NewUser(users, email)])
  {
    var us := users + [NewUser(users, email)];
    if |users| == 0 {
      assert us[0].hasPot;
    } else {
      var h := PotHolder(users).value;
      assert us[h].hasPot;
    }
  }

  /** Registration adds a user only under an email no user has, so emails stay
      distinct and the email query finds the one user registered under it. */
  lemma RegisterKeepsEmailsDistinct(users: seq<User>, email: string)
    requires DistinctEmails(users)
    requires FindByEmail(users, email).None?
    ensures DistinctEmails(users + [NewUser(users, email)])
  {
  }

  /** A hit keeps the invariant: the target's flag is cleared and the hitter's set in
      one step, so even a self-hit leaves exactly one holder. */
  lemma TransferKeepsPotInvariant(users: seq<User>, u: nat, t: nat)
    requires PotInvariant(users)
    requires u < |users| && t < |users|
    ensures PotInvariant(Transfer(users, u, t))
  {
    var r := Transfer(users, u, t);
    if users[t].hasPot {
      assert r[u].hasPot;
      forall i, j | 0 <= i < |r| && 0 <= j < |r| && r[i].hasPot && r[j].hasPot
        ensures i == j
      {
        assert i == u && j == u;
      }
    }
  }

  // ---------------------------------------------------------------------------
  // Lemmas about settlement and scores

  /** Crediting points touches neither pot flags nor emails. */
  lemma CreditKeepsUsersInvariant(users: seq<User>, h: nat, d: int)
    requires h < |users|
    requires PotInvariant(users) && DistinctEmails(users)
    ensures PotInvariant(Credit(users, h, d)) && DistinctEmails(Credit(users, h, d))
  {
    var r := Credit(users, h, d);
    assert forall k :: 0 <= k < |r| ==> r[k].hasPot == users[k].hasPot && r[k].email == users[k].email;
    var p := PotHolder(users).value;
    assert r[p].hasPot;
  }

  /** A table with nothing unpaid owes nothing. */
  lemma {:induction false} NothingUnpaid(cs: seq<Contribution>)
    requires forall k :: 0 <= k < |cs| ==> cs[k].paid
    ensures UnpaidTotal(cs) == 0 && UnpaidCount(cs) == 0
  {
    if |cs| > 0 {
      NothingUnpaid(cs[..|cs| - 1]);
    }
  }

  /** After settlement nothing is owed, so a second settlement credits nothing. */
  lemma SettleIsIdempotent(cs: seq<Contribution>)
    ensures UnpaidTotal(PayAll(cs)) == 0
    ensures PayAll(PayAll(cs)) == PayAll(cs)
  {
    NothingUnpaid(PayAll(cs));
  }

  /** With every contribution of the fixed amount, the amount owed is that amount times
      the number of unpaid contributions. */
  lemma {:induction false} UnpaidTotalOfFixedAmounts(cs: seq<Contribution>)
    requires AllOfAmount(cs)
    ensures UnpaidTotal(cs) == AMOUNT * UnpaidCount(cs)
  {
    if |cs| > 0 {
      UnpaidTotalOfFixedAmounts(cs[..|cs| - 1]);
    }
  }

  /** Appending a row adds its unpaid amount to the amount owed. */
  lemma UnpaidTotalAppend(cs: seq<Contribution>, c: Contribution)
    ensures UnpaidTotal(cs + [c]) == UnpaidTotal(cs) + (if c.paid then 0 else c.amount)
  {
    assert (cs + [c])[..|cs|] == cs;
  }

  /** Appending a user adds its score to the total. */
  lemma TotalScoreAppend(users: seq<User>, u: User)
    ensures TotalScore(users + [u]) == TotalScore(users) + u.score
  {
    assert (users + [u])[..|users|] == users;
  }

  /** Crediting `d` points to one user raises the total score by exactly `d`. */
  lemma {:induction false} TotalScoreCredit(users: seq<User>, h: nat, d: int)
    requires h < |users|
    ensures TotalScore(Credit(users, h, d)) == TotalScore(users) + d
  {
    var n := |users|;
    var r := Credit(users, h, d);
    if h == n - 1 {
      assert r[..n - 1] == users[..n - 1];
    } else {
      TotalScoreCredit(users[..n - 1], h, d);
      assert r[..n - 1] == Credit(users[..n - 1], h, d);
    }
  }

  /** Tables whose scores agree row by row have the same total score. */
  lemma {:induction false} TotalScoreOfSameScores(a: seq<User>, b: seq<User>)
    requires |a| == |b|
    requires forall k :: 0 <= k < |a| ==> a[k].score == b[k].score
    ensures TotalScore(a) == TotalScore(b)
  {
    if |a| > 0 {
      TotalScoreOfSameScores(a[..|a| - 1], b[..|b| - 1]);
    }
  }

  /** Settlement conserves scores plus debt: the pot holder gains exactly what was
      owed, and afterwards nothing is owed. */
  lemma SettlementConserves(users: seq<User>, cs: seq<Contribution>, h: nat)
    requires h < |users|
    ensures TotalScore(Credit(users, h, UnpaidTotal(cs))) + UnpaidTotal(PayAll(cs))
         == TotalScore(users) + UnpaidTotal(cs)
  {
    TotalScoreCredit(users, h, UnpaidTotal(cs));
    SettleIsIdempotent(cs);
  }

  /** A hit moves no points. */
  lemma TransferKeepsScores(users: seq<User>, u: nat, t: nat)
    requires u < |users| && t < |users|
    ensures TotalScore(Transfer(users, u, t)) == TotalScore(users)
  {
    TotalScoreOfSameScores(Transfer(users, u, t), users);
  }
}
