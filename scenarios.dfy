/** Clients of the handlers: concrete games whose outcomes follow from the handlers'
    contracts alone. */
module Scenarios {
  import opened Models
  import opened App

  /** Two players register; the second hits the first, who holds the pot, and takes it. */
  method HitTakesThePot() {
    var db := new Database("key");
    var a := db.Register(Some("a"));
    assert a == UserRow(1, User("a", true, true, 0));
    assert FindByEmail(db.users, "b") == None;
    var b := db.Register(Some("b"));
    assert b == UserRow(2, User("b", false, true, 0));
    var r := db.Hit(Some(2), Some(1));
    assert r == HitReport(true);
    assert db.contributions == [Contribution(2, AMOUNT, false)];
    assert !db.users[0].hasPot && db.users[1].hasPot;
    // hitting a player without the pot records a contribution and moves nothing
    r := db.Hit(Some(1), Some(1));
    assert r == HitReport(false);
    assert |db.contributions| == 2 && !db.users[0].hasPot && db.users[1].hasPot;
    // an unknown target is not found and records nothing
    r := db.Hit(Some(1), Some(7));
    assert r == NotFound && |db.contributions| == 2;
    // an id beyond 64 bits cannot be looked up at all
    r := db.Hit(Some(0x8000_0000_0000_0000), Some(1));
    assert r == ServerError && |db.contributions| == 2;
  }

  /** Registering a known email again answers the existing player and adds no one. */
  method RegisterTwice() {
    var db := new Database("key");
    var a := db.Register(Some("a"));
    assert db.users == [User("a", true, true, 0)];
    assert FindByEmail(db.users, "a") == Some(0);
    var again := db.Register(Some("a"));
    assert again == a && |db.users| == 1;
    var bad := db.Register(None);
    assert bad == BadRequest && |db.users| == 1;
  }

  /** Contributions are recorded unpaid, for whatever user id the request names. */
  method ContributeThree() {
    var db := new Database("key");
    var p := db.Register(Some("p"));
    var c1 := db.Contribute(Some(2));
    var c2 := db.Contribute(Some(3));
    var c3 := db.Contribute(Some(4));
    assert c3 == ContributionRow(3, Contribution(4, AMOUNT, false));
    assert db.contributions == [NewContribution(2), NewContribution(3), NewContribution(4)];
    var none := db.Contribute(Some(0));
    assert none == NotFound && |db.contributions| == 3;
    var huge := db.Contribute(Some(0x8000_0000_0000_0000));
    assert huge == ServerError && |db.contributions| == 3;
  }

  /** Three unpaid contributions are settled: the pot holder gains 15 points, the
      contributors lose nothing, and nothing is left unpaid. A wrong key settles nothing. */
  method SettleThree(db: Database)
    requires db.Valid()
    requires db.users == [User("p", true, true, 0), User("q", false, true, 0)]
    requires db.contributions == [NewContribution(2), NewContribution(3), NewContribution(4)]
    modifies db
  {
    ghost var cs := db.contributions;
    UnpaidTotalOfFixedAmounts(cs);
    assert UnpaidCount(cs) == 3 by {
      var two := [NewContribution(2), NewContribution(3)];
      assert cs[..|cs| - 1] == two;
      assert two[..|two| - 1] == [NewContribution(2)];
      assert [NewContribution(2)][..0] == [];
    }
    var wrong := db.End(db.adminKey + "!");
    assert wrong == PaidReport(false) && db.contributions == cs;
    assert PotHolder(db.users) == Some(0);
    var r := db.End(db.adminKey);
    assert r == PaidReport(true);
    assert db.users[0].score == 15 && db.users[1].score == 0;
    assert forall k :: 0 <= k < |db.contributions| ==> db.contributions[k].paid;
  }

  /** Paying a contribution twice pays it once. */
  method PayTwice() {
    var db := new Database("key");
    var c := db.Contribute(Some(1));
    var first := db.Pay(0);
    var second := db.Pay(0);
    assert first && !second && db.contributions == [Contribution(1, AMOUNT, true)];
  }
}
