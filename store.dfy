/**
 * The two database tables the core reads and writes, as GORM presents them:
 * users keyed by their primary key and admin settings keyed by their unique key.
 */
module Store {
  import opened Wrappers
  import opened Models

  /** The `unique` constraint on the email column. */
  ghost predicate EmailsUnique(users: map<nat, User>)
  {
    forall i, j :: i in users && j in users && users[i].email == users[j].email ==> i == j
  }

  /** Every users row sits under its own id, and ids come from a sequence starting at 1. */
  ghost predicate UsersKeyed(users: map<nat, User>, nextId: nat)
  {
    forall id :: id in users ==> users[id].id == id && 0 < id < nextId
  }

  /** Every settings row sits under its own key (the `uniqueIndex` on Key). */
  ghost predicate SettingsKeyed(settings: map<string, Setting>, nextId: nat)
  {
    forall k :: k in settings ==> settings[k].key == k && 0 < settings[k].id < nextId
  }

  class Database {
    var users: map<nat, User>
    var settings: map<string, Setting>
    /** The next value of the users id sequence. */
    var nextUserId: nat
    /** The next value of the settings id sequence. */
    var nextSettingId: nat

    ghost predicate Valid()
      reads this
    {
      && 0 < nextUserId && 0 < nextSettingId
      && EmailsUnique(users)
      && UsersKeyed(users, nextUserId)
      && SettingsKeyed(settings, nextSettingId)
    }

    /** A freshly migrated, empty database. */
    constructor ()
      ensures Valid()
      ensures users == map[] && settings == map[]
      ensures nextUserId == 1 && nextSettingId == 1
    {
      users := map[];
      settings := map[];
      nextUserId := 1;
      nextSettingId := 1;
    }
  }

  /** A non-empty set of naturals has a least element. */
  lemma {:induction false} Least(s: set<nat>) returns (m: nat)
    requires s != {}
    ensures m in s && forall k :: k in s ==> m <= k
    decreases |s|
  {
    var x :| x in s;
    var rest := s - {x};
    if rest == {} {
      m := x;
    } else {
      var r := Least(rest);
      m := if x < r then x else r;
    }
    forall k | k in s
      ensures m <= k
    {
      if k != x {
        assert k in rest;
      }
    }
  }

  lemma HasLeast(s: set<nat>)
    requires s != {}
    ensures exists m :: m in s && forall k :: k in s ==> m <= k
  {
    var m := Least(s);
  }

  /**
   * `Where("email = ?", email).First(&user)`: the row with the given email that has
   * the smallest primary key, or none.
   */
  function FirstByEmail(users: map<nat, User>, email: string): (r: Option<nat>)
    ensures r.None? <==> forall id :: id in users ==> users[id].email != email
    ensures r.Some? ==> r.value in users && users[r.value].email == email
    ensures r.Some? ==> forall id :: id in users && users[id].email == email ==> r.value <= id
  {
    var ids := set id | id in users && users[id].email == email;
    assert forall id :: id in users && users[id].email == email ==> id in ids;
    if ids == {} then
      None
    else
      HasLeast(ids);
      var m :| m in ids && forall k :: k in ids ==> m <= k;
      Some(m)
  }

  /** With unique emails, the first match is the only match. */
  lemma FirstByEmailUnique(users: map<nat, User>, email: string, id: nat)
    requires EmailsUnique(users)
    requires id in users && users[id].email == email
    ensures FirstByEmail(users, email) == Some(id)
  {
  }
}
