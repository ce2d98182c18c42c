/**
 * The three tables of the HarvestHub back end (users, food listings and
 * matches) and the consistency rules that the request handlers keep about
 * them.
 *
 * Rows are never deleted, so SQLite's integer primary key of the n-th row
 * inserted into a table is n; `created_at` is a reading of a logical clock
 * that advances on every insertion.
 */
module Models {
  import opened Wrappers

  /** Values of `FoodListing.status` named by the schema. */
  datatype ListingStatus = Available | Matched | PickedUp

  /** Values of `Match.status` named by the schema. */
  datatype MatchStatus = Pending | Accepted | Completed

  /** `password` holds the password hash, never the password itself. */
  datatype User = User(id: nat, name: string, email: string, password: string, role: string, createdAt: int)

  /** `photoUrl`, `quantity` and `shelfLife` are the nullable columns. */
  datatype FoodListing = FoodListing(
    id: nat, userId: nat, photoUrl: Option<string>, description: string, location: string,
    quantity: Option<string>, shelfLife: Option<string>, status: ListingStatus, createdAt: int)

  datatype Match = Match(id: nat, foodId: nat, partnerId: nat, status: MatchStatus, createdAt: int)

  /** A listing inserted without a status gets the column default, 'available'. */
  function NewListing(id: nat, userId: nat, photoUrl: Option<string>, description: string, location: string,
                      quantity: Option<string>, shelfLife: Option<string>, createdAt: int): (l: FoodListing)
    ensures l.status == Available
    ensures l.id == id && l.userId == userId && l.createdAt == createdAt
    ensures ClaimConsistent(l, 0) && !ClaimConsistent(l, 1)
  {
    FoodListing(id, userId, photoUrl, description, location, quantity, shelfLife, Available, createdAt)
  }

  /** A match inserted with status 'pending' (also the column default). */
  function NewMatch(id: nat, foodId: nat, partnerId: nat, createdAt: int): (m: Match)
    ensures m.status == Pending
    ensures m.id == id && m.foodId == foodId && m.partnerId == partnerId && m.createdAt == createdAt
  {
    Match(id, foodId, partnerId, Pending, createdAt)
  }

  // ---------------------------------------------------------------------------
  // Unique e-mail

  predicate UniqueEmails(users: seq<User>) {
    forall i, j :: 0 <= i < j < |users| ==> users[i].email != users[j].email
  }

  predicate EmailTaken(users: seq<User>, email: string) {
    exists i :: 0 <= i < |users| && users[i].email == email
  }

  /** How many rows of the users table carry `email`. */
  function EmailCount(users: seq<User>, email: string): nat {
    if users == [] then 0
    else (if users[0].email == email then 1 else 0) + EmailCount(users[1..], email)
  }

  lemma {:induction false} EmailCountAppend(users: seq<User>, u: User, email: string)
    ensures EmailCount(users + [u], email) == EmailCount(users, email) + (if u.email == email then 1 else 0)
  {
    if users != [] {
      assert (users + [u])[1..] == users[1..] + [u];
      EmailCountAppend(users[1..], u, email);
    }
  }

  lemma {:induction false} EmailCountAbsent(users: seq<User>, email: string)
    ensures EmailCount(users, email) == 0 <==> !EmailTaken(users, email)
  {
    if users != [] {
      EmailCountAbsent(users[1..], email);
      if users[0].email != email {
        if EmailTaken(users, email) {
          var i :| 0 <= i < |users| && users[i].email == email;
          assert users[1..][i - 1].email == email;
        }
      }
    }
  }

  /** The unique constraint on `User.email`: no e-mail occurs twice. */
  lemma {:induction false} UniqueEmailsAtMostOnce(users: seq<User>, email: string)
    requires UniqueEmails(users)
    ensures EmailCount(users, email) <= 1
    ensures EmailTaken(users, email) ==> EmailCount(users, email) == 1
  {
    if users != [] {
      UniqueEmailsAtMostOnce(users[1..], email);
      EmailCountAbsent(users[1..], email);
      if users[0].email == email {
        assert !EmailTaken(users[1..], email) by {
          forall i | 0 <= i < |users[1..]|
            ensures users[1..][i].email != email
          {
            assert users[1..][i] == users[i + 1];
          }
        }
      } else if EmailTaken(users, email) {
        var i :| 0 <= i < |users| && users[i].email == email;
        assert users[1..][i - 1].email == email;
      }
    }
  }

  /** Adding a user whose e-mail is not yet taken keeps e-mails unique, and
      afterwards that e-mail occurs exactly once. */
  lemma AddUserKeepsEmailsUnique(users: seq<User>, u: User)
    requires UniqueEmails(users)
    requires !EmailTaken(users, u.email)
    ensures UniqueEmails(users + [u])
    ensures EmailCount(users + [u], u.email) == 1
  {
    EmailCountAppend(users, u, u.email);
    EmailCountAbsent(users, u.email);
  }

  // ---------------------------------------------------------------------------
  // Claims: a listing is matched at most once

  /** How many matches refer to the listing `foodId`. */
  function MatchCount(matches: seq<Match>, foodId: nat): nat {
    if matches == [] then 0
    else (if matches[0].foodId == foodId then 1 else 0) + MatchCount(matches[1..], foodId)
  }

  lemma {:induction false} MatchCountAppend(matches: seq<Match>, m: Match, foodId: nat)
    ensures MatchCount(matches + [m], foodId) == MatchCount(matches, foodId) + (if m.foodId == foodId then 1 else 0)
  {
    if matches != [] {
      assert (matches + [m])[1..] == matches[1..] + [m];
      MatchCountAppend(matches[1..], m, foodId);
    }
  }

  lemma {:induction false} MatchCountAbsent(matches: seq<Match>, foodId: nat)
    requires forall i :: 0 <= i < |matches| ==> matches[i].foodId != foodId
    ensures MatchCount(matches, foodId) == 0
  {
    if matches != [] {
      MatchCountAbsent(matches[1..], foodId);
    }
  }

  /** An available listing has no match; a matched listing has exactly one. */
  predicate ClaimConsistent(l: FoodListing, claims: nat) {
    (l.status == Available && claims == 0) || (l.status == Matched && claims == 1)
  }

  predicate ClaimedAtMostOnce(listings: seq<FoodListing>, matches: seq<Match>) {
    forall i :: 0 <= i < |listings| ==> ClaimConsistent(listings[i], MatchCount(matches, listings[i].id))
  }

  // ---------------------------------------------------------------------------
  // The whole store

  predicate UserRowValid(u: User, row: nat) {
    u.id == row + 1 && u.name != "" && u.email != "" && u.role != ""
  }

  predicate UsersValid(users: seq<User>) {
    && (forall i :: 0 <= i < |users| ==> UserRowValid(users[i], i))
    && UniqueEmails(users)
  }

  /** Required columns are non-empty and the owner is an existing user. */
  predicate ListingRowValid(l: FoodListing, row: nat, userCount: nat, clock: int) {
    && l.id == row + 1
    && 1 <= l.userId <= userCount
    && l.description != "" && l.location != ""
    && l.createdAt < clock
  }

  predicate ListingsValid(listings: seq<FoodListing>, userCount: nat, clock: int) {
    && (forall i :: 0 <= i < |listings| ==> ListingRowValid(listings[i], i, userCount, clock))
    && (forall i, j :: 0 <= i < j < |listings| ==> listings[i].createdAt < listings[j].createdAt)
  }

  /** A match refers to an existing listing and an existing partner. */
  predicate MatchRowValid(m: Match, row: nat, listingCount: nat, userCount: nat) {
    && m.id == row + 1
    && 1 <= m.foodId <= listingCount
    && 1 <= m.partnerId <= userCount
    && m.status == Pending
  }

  predicate MatchesValid(matches: seq<Match>, listingCount: nat, userCount: nat) {
    forall i :: 0 <= i < |matches| ==> MatchRowValid(matches[i], i, listingCount, userCount)
  }

  /** Every rule the schema states or the handlers keep, over the whole store. */
  predicate Consistent(users: seq<User>, listings: seq<FoodListing>, matches: seq<Match>, clock: int)
    ensures Consistent(users, listings, matches, clock) ==>
              forall i :: 0 <= i < |listings| ==>
                1 <= listings[i].userId <= |users| && users[listings[i].userId - 1].id == listings[i].userId
    ensures Consistent(users, listings, matches, clock) ==>
              forall i :: 0 <= i < |matches| ==>
                && 1 <= matches[i].foodId <= |listings| && listings[matches[i].foodId - 1].id == matches[i].foodId
                && 1 <= matches[i].partnerId <= |users| && users[matches[i].partnerId - 1].id == matches[i].partnerId
  {
    && UsersValid(users)
    && ListingsValid(listings, |users|, clock)
    && MatchesValid(matches, |listings|, |users|)
    && ClaimedAtMostOnce(listings, matches)
  }

  /** In a consistent store no listing is matched twice: whatever `foodId`,
      at most one match refers to it. */
  lemma AtMostOneMatchPerListing(users: seq<User>, listings: seq<FoodListing>, matches: seq<Match>, clock: int, foodId: nat)
    requires Consistent(users, listings, matches, clock)
    ensures MatchCount(matches, foodId) <= 1
  {
    if 1 <= foodId <= |listings| {
      assert listings[foodId - 1].id == foodId;
    } else {
      MatchCountAbsent(matches, foodId);
    }
  }

  /** register: a new user with a fresh e-mail and the next row id. */
  lemma AddUserKeepsConsistent(users: seq<User>, listings: seq<FoodListing>, matches: seq<Match>, clock: int, u: User)
    requires Consistent(users, listings, matches, clock)
    requires UserRowValid(u, |users|)
    requires !EmailTaken(users, u.email)
    ensures Consistent(users + [u], listings, matches, clock + 1)
  {
    AddUserKeepsEmailsUnique(users, u);
    var users' := users + [u];
    forall i | 0 <= i < |users'|
      ensures UserRowValid(users'[i], i)
    {
      if i < |users| { assert users'[i] == users[i]; }
    }
  }

  /** add_food: a new available listing with the next row id and the current
      clock reading, owned by an existing user. */
  lemma AddListingKeepsConsistent(users: seq<User>, listings: seq<FoodListing>, matches: seq<Match>, clock: int, l: FoodListing)
    requires Consistent(users, listings, matches, clock)
    requires l.id == |listings| + 1 && 1 <= l.userId <= |users|
    requires l.description != "" && l.location != ""
    requires l.status == Available && l.createdAt == clock
    ensures Consistent(users, listings + [l], matches, clock + 1)
  {
    var listings' := listings + [l];
    MatchCountAbsent(matches, l.id);
    forall i | 0 <= i < |listings'|
      ensures ListingRowValid(listings'[i], i, |users|, clock + 1)
      ensures ClaimConsistent(listings'[i], MatchCount(matches, listings'[i].id))
    {
      if i < |listings| { assert listings'[i] == listings[i]; }
    }
  }

  /** claim_food: listing `k` goes from available to matched and one pending
      match for it, by an existing partner, is appended. */
  lemma ClaimKeepsConsistent(users: seq<User>, listings: seq<FoodListing>, matches: seq<Match>, clock: int,
                             k: nat, partnerId: nat)
    requires Consistent(users, listings, matches, clock)
    requires k < |listings| && listings[k].status == Available
    requires 1 <= partnerId <= |users|
    ensures Consistent(users, listings[k := listings[k].(status := Matched)],
                       matches + [NewMatch(|matches| + 1, listings[k].id, partnerId, clock)], clock + 1)
  {
    var m := NewMatch(|matches| + 1, listings[k].id, partnerId, clock);
    var listings' := listings[k := listings[k].(status := Matched)];
    var matches' := matches + [m];
    forall i | 0 <= i < |listings'|
      ensures ClaimConsistent(listings'[i], MatchCount(matches', listings'[i].id))
    {
      MatchCountAppend(matches, m, listings'[i].id);
      assert listings'[i].id == i + 1 && listings[k].id == k + 1;
    }
    forall i | 0 <= i < |matches'|
      ensures MatchRowValid(matches'[i], i, |listings'|, |users|)
    {
      if i < |matches| { assert matches'[i] == matches[i]; }
    }
    assert ListingsValid(listings', |users|, clock + 1) by {
      forall i | 0 <= i < |listings'|
        ensures ListingRowValid(listings'[i], i, |users|, clock + 1)
      {
        assert ListingRowValid(listings[i], i, |users|, clock);
      }
    }
  }
}
