# Pot game server — a Dafny model

The server runs a social "pot" game. Players register by email. Exactly one player holds
the pot. A player "hits" another by making a contribution of a fixed 5 points. Hitting the
pot holder takes the pot. When the administrator ends the game, every unpaid contribution
is paid and its amount is credited to the pot holder's score.

The model keeps the two database tables, users and contributions, and the request
handlers that change them:

- `models.dfy`, module `Models`: the rows as datatypes (`User`, `Contribution`) and the
  constant `AMOUNT`. It also holds the queries the handlers run (`Lookup`, `PotHolder`,
  `FindByEmail`, `Others`) and the table transformations that specify the handlers
  (`PayAll`, `Credit`, `Transfer`). The lemmas about these are here too: the one-pot
  invariant, idempotent settlement and score conservation.
- `app.dfy`, module `App`: class `Database`, whose `users` and `contributions` fields are
  the two tables. Its methods are the handlers and `Contribution.pay` /
  `pay_contributions`. Each handler is one atomic update that returns a `Response` value
  instead of an HTTP status. `Valid()` is the game invariant. Every handler preserves it:
  exactly one user holds the pot once any user exists, no two users share an email,
  and every contribution has the fixed amount. `Ledger()` is all scores plus the unpaid
  total. Settlement and registration keep it unchanged. Each recorded contribution raises it by exactly `AMOUNT`.
- `scenarios.dfy`, module `Scenarios`: client methods that play short games. They show
  what the handler contracts determine: a hit takes the pot, registering twice gives the
  same user, settling three contributions credits 15, and paying twice pays once.

Row ids are the position in the table plus one. This follows the default SQLite
database (`sqlite:///dev.db`). It hands out autoincrement ids without gaps, and nothing in
the game deletes a row.

Choices the model makes:
- Settlement credits the pot holder with each newly paid amount. It does not change the
  contributor's score, and neither does `app.py`.
- If nobody holds the pot, `pay_contributions` raises before it commits. It fails either
  at `user.score` or at `db.session.add(None)`, so nothing changes. The model returns
  `NoPotHolder`, and `end` answers `ServerError`, with the state unchanged. Under the
  invariant, this happens exactly when no user exists (`NoPotHolderIffEmpty`).
- The only game-level handler in `app.py` is `end`, and it settles. The model therefore
  has no "game active" flag.

## Model

| member | source | states |
|---|---|---|
| Models.Lookup | app.py:192-193 | `User.query.get(id)` finds the row exactly when the request carries an id that some row has; the row found has that id |
| Models.FirstWhere | app.py:118 | `first()` of a filter: the result satisfies the filter and no earlier row does; no result means no row satisfies it |
| Models.PotHolder | app.py:118 | the user found holds the pot; nothing is found exactly when nobody holds the pot |
| Models.FindByEmail | app.py:161 | the user found has the email and is the first such; nothing is found exactly when no user has it |
| Models.Others | app.py:68-72 | `get_others(id)` lists, in id order, each user whose id differs from `id`, with that user's row; it has one entry fewer than the table exactly when `id` is a user's id |
| Models.OthersIsComplete | app.py:68-72 | every user whose id differs from `id` appears in `get_others(id)` |
| Models.PayAll | app.py:116-124 | after settlement every contribution is paid, its user and amount are unchanged, and an already-paid contribution is left as it was |
| Models.Credit | app.py:120-121 | crediting changes only the pot holder's score, by exactly the credited amount |
| Models.Transfer | app.py:203-205 | a hit on the pot holder leaves the hitter holding the pot and the target (if different) without it; a hit on anyone else changes nothing; no other user and no score changes |
| Models.PotHolderIsUnique | app.py:118 | under the invariant, a user holds the pot if and only if the query returns that user |
| Models.NoPotHolderIffEmpty | app.py:118-123 | under the invariant, settlement lacks a pot holder exactly when there are no users |
| Models.RegisterKeepsPotInvariant | app.py:163-167 | a new user gets the pot only when the table was empty, so exactly one holder remains |
| Models.RegisterKeepsEmailsDistinct | app.py:161-168 | a user is added only under an email no user has, so no two users share an email |
| Models.TransferKeepsPotInvariant | app.py:203-205 | the pot rule of a hit, self-hit included, keeps exactly one holder |
| Models.NothingUnpaid | app.py:119-120 | when every contribution is paid, the unpaid total and unpaid count are zero |
| Models.SettleIsIdempotent | app.py:116-124 | after a settlement nothing is owed, and settling again changes no contribution |
| Models.UnpaidTotalOfFixedAmounts | app.py:25 | when every contribution has the fixed amount, the unpaid total is `AMOUNT` times the number of unpaid contributions |
| Models.CreditKeepsUsersInvariant | app.py:121 | crediting a score changes no pot flag and no email, so the one-holder and distinct-email invariants survive settlement |
| Models.TotalScoreCredit | app.py:121 | crediting `d` to one user raises the sum of all scores by exactly `d` |
| Models.SettlementConserves | app.py:116-124 | the pot holder's gain equals the unpaid total, so scores plus unpaid total are unchanged by settlement |
| Models.TransferKeepsScores | app.py:203-205 | a hit leaves the sum of scores unchanged |
| App.Database.constructor | app.py:225 | an empty game with the given administrator key satisfies the invariant |
| App.Database.Pay | app.py:101-108 | an unpaid contribution becomes paid and the call answers true; a paid one is left unchanged and the call answers false; nothing else changes, and the invariant is kept |
| App.Database.PayContributions | app.py:116-124 | with a pot holder, every contribution is paid and the holder's score rises by the unpaid total; other users are untouched; paid flags never revert; the ledger is conserved; without a pot holder (exactly when there are no users) nothing changes |
| App.Database.Register | app.py:159-172 | no email: bad request, no change; known email: that user, no change; new email: one user appended, holding the pot only if it is the first; the invariant (one pot holder, distinct emails) holds |
| App.Database.Contribute | app.py:132-142 | a truthy user id within the signed 64-bit range appends one unpaid contribution of `AMOUNT` for that id and returns it with its id; a truthy id outside that range fails the insert (server error, no change); otherwise not-found and no change |
| App.Database.Hit | app.py:189-212 | an id outside the signed 64-bit range makes its lookup raise (server error, no change); otherwise, both ids found: one unpaid `AMOUNT` contribution for the hitter is appended, the pot rule applies, and the answer is the hitter's resulting pot flag; either id missing: not-found and no change |
| App.Database.End | app.py:215-221 | a wrong key answers `paid: false` and changes nothing; the admin key settles exactly as `PayContributions` does, or fails with no change when there is no user |

## Left out

- The GET branches (`users`, `contributions`, `user(id)`, `contribution(id)`, `targets(id)`) are reads followed by `to_json`. Their queries are `Lookup` and `Others`. `get_users` and `get_contributions` are the two tables themselves.
- `to_json`, `__repr__` and `print` only format output and have no invariants.
- The `created` timestamps come from `datetime.now()`, a clock, so the model has no timestamps.
- Flask routing, request parsing and HTTP statuses are left out. Request fields are `Option` values. An absent field is `None`.
- The `user` and `id` request fields are modelled as integers. The database's coercion of strings or other JSON values into integer keys is not modelled.
- The truthiness of `user` in `contributions()` is modelled as "present and non-zero".
- The SQLAlchemy session is left out. Each handler is one atomic update. A handler that raises commits nothing.
- The source declares a foreign key from a contribution to its user. The model follows the default SQLite database, which does not enforce that key. So `Contribute` accepts any non-zero user id within the signed 64-bit range that the SQLite driver can bind. A database that enforces the key would reject an unknown user at commit, with no change. It might also leave a gap in the ids. Neither is modelled.
- App.Database.Hit: an absent `id` or `target` is modelled as not-found with no change. `User.query.get(None)` returns None in SQLAlchemy 1.4 and later. Older SQLAlchemy raises a TypeError there, so the request fails with a 500 and nothing is committed.
- Models.FirstWhere: `first()` at lines 118 and 161 has no `order_by`, so SQL does not fix which matching row comes first. The model takes the lowest id. This matters only if two rows match. Under the invariant that never happens: there is at most one pot holder, and no two users share an email.
- Models.Others: the query at line 71 has no `order_by` either. The id order the model lists users in is SQLite's rowid scan order, which SQL itself does not promise. Which users are listed does not depend on this.
- Scores are unbounded integers. The 64-bit range of the database column is not modelled.
- Environment configuration (`DATABASE_URL`, `ADMIN_KEY`), template setup and `app.run` are left out. The admin key is a constructor parameter.
- Concurrent requests are left out. The model handles requests one at a time.
- The `alive` column is stored but never changed, and no operation reads it.
