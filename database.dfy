/**
 * The `Database` class: the tables live in its fields, every mutator is one
 * short change to one table, and every reader is a function of the tables.
 * A row that SQL would look up by key is a map entry; an UPDATE whose WHERE
 * matches no row changes nothing.
 */
module Store {
  import opened Wrappers
  import Timestamps
  import opened Ledger
  import opened Profiles
  import opened Cards
  import opened Schema

  class Database {
    /** `users`, keyed by `user_id`. */
    var users: map<int, UserRow>
    /** `groups`, keyed by `chat_id`, holding the title. */
    var groups: map<int, Option<string>>
    /** `user_profiles`, keyed by `user_id`. */
    var profiles: map<int, Profile>
    /** `user_rarities`, keyed by `(user_id, rarity)`, holding `count`. */
    var rarities: map<RarityKey, int>
    /** The columns the `users` table has. */
    var userColumns: Columns
    /** `user_waifus`, read here and written elsewhere. */
    var owned: seq<Ownership>
    /** `waifu_cards`, read here and written elsewhere. */
    var cards: seq<Card>

    /** The state after `setup`: legacy columns patched, and card ids unique as the primary key makes them. */
    ghost predicate Valid()
      reads this
    {
      HasLegacyColumns(userColumns) && UniqueIds(cards)
    }

    /**
     * `Database(db_path)` on a file whose tables hold the given rows: `setup`
     * patches the legacy columns of `users` and nothing else changes.
     */
    constructor Open(users0: map<int, UserRow>, groups0: map<int, Option<string>>, profiles0: map<int, Profile>,
                     rarities0: map<RarityKey, int>, columns0: Columns, owned0: seq<Ownership>, cards0: seq<Card>)
      requires UniqueIds(cards0)
      ensures Valid()
      ensures users == users0 && groups == groups0 && profiles == profiles0 && rarities == rarities0
      ensures owned == owned0 && cards == cards0
      ensures userColumns == AddColumns(columns0, LegacyColumns())
    {
      users, groups, profiles, rarities := users0, groups0, profiles0, rarities0;
      userColumns, owned, cards := columns0, owned0, cards0;
      new;
      PatchUserColumns();
      AddColumnsSpec(columns0, LegacyColumns());
    }

    // ---------------- Setup ----------------

    /** `_add_missing_column(column_name)`. */
    method AddMissingColumn(name: string)
      modifies this`userColumns
      ensures userColumns == AddColumn(old(userColumns), name)
    {
      if name !in userColumns {
        userColumns := userColumns[name := ColumnTypeFor(name)];
      }
    }

    /** The loop at the end of `setup` over the claim columns and `first_logged`. */
    method PatchUserColumns()
      modifies this`userColumns
      ensures userColumns == AddColumns(old(userColumns), LegacyColumns())
      ensures HasLegacyColumns(userColumns)
    {
      var names := LegacyColumns();
      for i := 0 to |names|
        invariant userColumns == AddColumns(old(userColumns), names[..i])
      {
        assert names[..i + 1][..i] == names[..i];
        AddMissingColumn(names[i]);
      }
      assert names[..|names|] == names;
      AddColumnsSpec(old(userColumns), names);
    }

    // ---------------- User Management ----------------

    /** `add_user`: INSERT OR IGNORE, so an existing row is left exactly as it was. */
    method AddUser(user: int, username: Option<string> := None, firstName: Option<string> := None)
      requires Valid()
      modifies this`users
      ensures Valid()
      ensures user in old(users) ==> users == old(users)
      ensures user !in old(users) ==> users == old(users)[user := NewUser(username, firstName)]
      ensures user !in old(users) ==> GetCrystals(user) == NoBalance && !IsFirstLogged(user)
    {
      if user !in users {
        var row := NewUser(username, firstName);
        NewUserHasNoBalance(username, firstName);
        users := users[user := row];
        assert users[user] == row;
      }
    }

    /** `is_first_logged`: the stored flag is 1; False for a user without a row. */
    function IsFirstLogged(user: int): (b: bool)
      reads this
      ensures b <==> user in users && users[user].firstLogged == 1
    {
      if user in users then users[user].firstLogged == 1 else false
    }

    /** `set_first_logged`: UPDATE of one column, so a missing user stays missing. */
    method SetFirstLogged(user: int)
      requires Valid()
      modifies this`users
      ensures Valid()
      ensures user in old(users) ==> users == old(users)[user := old(users)[user].(firstLogged := 1)]
      ensures user !in old(users) ==> users == old(users)
      ensures IsFirstLogged(user) <==> user in old(users)
    {
      if user in users {
        users := users[user := users[user].(firstLogged := 1)];
      }
    }

    // ---------------- Crystal Management ----------------

    /**
     * `add_crystals(user_id, **kwargs)`: for each keyword naming a category,
     * one UPDATE adding its amount to that counter. Other keywords are skipped,
     * and a user without a row is not created.
     */
    method AddCrystals(user: int, kwargs: seq<(string, int)>)
      requires Valid()
      modifies this`users
      ensures Valid()
      ensures user in old(users) ==> users == old(users)[user := Credited(old(users)[user], kwargs)]
      ensures user !in old(users) ==> users == old(users)
    {
      for i := 0 to |kwargs|
        invariant user in old(users) ==> users == old(users)[user := Credited(old(users)[user], kwargs[..i])]
        invariant user !in old(users) ==> users == old(users)
      {
        var (key, amount) := kwargs[i];
        if user in old(users) {
          CreditedStep(old(users)[user], kwargs, i);
        }
        match ParseCategory(key)
        case Some(c) =>
          if user in users {
            var row := users[user];
            users := users[user := row.WithCrystals(c, row.Crystals(c) + amount)];
          }
        case None =>
      }
      assert kwargs[..|kwargs|] == kwargs;
    }

    /** `get_crystals`: the zero tuple for a user without a row, otherwise the row's summary. */
    function GetCrystals(user: int): (b: Balance)
      reads this
      ensures user !in users ==> b == NoBalance
      ensures user in users ==> b == Summary(users[user])
    {
      if user in users then Summary(users[user]) else NoBalance
    }

    /** `get_last_claim`: the stored claim of that category; None for a user without a row. */
    function GetLastClaim(user: int, c: Category): (t: Option<string>)
      reads this
      ensures user !in users ==> t == None
      ensures user in users ==> t == users[user].Claim(c)
    {
      if user in users then users[user].Claim(c) else None
    }

    /** `update_last_claim`: UPDATE of that category's claim only; a missing user stays missing. */
    method UpdateLastClaim(user: int, c: Category, time: string)
      requires Valid()
      modifies this`users
      ensures Valid()
      ensures user in old(users) ==> users == old(users)[user := old(users)[user].WithClaim(c, Some(time))]
      ensures user !in old(users) ==> users == old(users)
      ensures GetLastClaim(user, c) == if user in old(users) then Some(time) else None
      ensures forall d: Category :: d != c ==> GetLastClaim(user, d) == old(GetLastClaim(user, d))
    {
      if user in users {
        users := users[user := users[user].WithClaim(c, Some(time))];
      }
    }

    // ---------------- Group Management ----------------

    /** `add_group`: INSERT OR IGNORE; the group count grows by one exactly when the chat is new. */
    method AddGroup(chat: int, title: Option<string>)
      requires Valid()
      modifies this`groups
      ensures Valid()
      ensures chat in old(groups) ==> groups == old(groups)
      ensures chat !in old(groups) ==> groups == old(groups)[chat := title]
      ensures GetTotalGroups() == old(GetTotalGroups()) + (if chat in old(groups) then 0 else 1)
    {
      if chat !in groups {
        groups := groups[chat := title];
      }
    }

    /** `get_total_groups`: `SELECT COUNT(*) FROM groups`, one per distinct chat id. */
    function GetTotalGroups(): (n: nat)
      reads this
      ensures n == |groups.Keys|
    {
      |groups|
    }

    // ---------------- Profile System ----------------

    /**
     * `get_user_profile`: None when there is no profile row, whatever rarity
     * rows exist; otherwise the profile with the user's rarity map.
     */
    function GetUserProfile(user: int): (v: Option<ProfileView>)
      reads this
      ensures v.None? <==> user !in profiles
      ensures v.Some? ==> v.value.profile == profiles[user]
      ensures v.Some? ==> forall r :: r in v.value.rarities <==> (user, r) in rarities
      ensures v.Some? ==> forall r :: r in v.value.rarities ==> v.value.rarities[r] == rarities[(user, r)]
    {
      if user in profiles then Some(ProfileView(profiles[user], RaritiesOf(rarities, user))) else None
    }

    /**
     * `add_or_update_profile(user_id, **fields)`: the row becomes the defaults
     * updated by the supplied fields, whether or not a row existed.
     */
    method AddOrUpdateProfile(user: int, fields: ProfileFields)
      requires Valid()
      modifies this`profiles
      ensures Valid()
      ensures profiles == old(profiles)[user := Merge(fields)]
      ensures GetUserProfile(user).Some? && GetUserProfile(user).value.profile == Merge(fields)
    {
      profiles := profiles[user := Merge(fields)];
    }

    /** `update_user_rarity(user_id, rarity, count)`: additive upsert of one (user, rarity) pair. */
    method UpdateUserRarity(user: int, rarity: string, count: int := 1)
      requires Valid()
      modifies this`rarities
      ensures Valid()
      ensures rarities == Bump(old(rarities), user, rarity, count)
      ensures (user, rarity) in rarities
      ensures rarities[(user, rarity)] == (if (user, rarity) in old(rarities) then old(rarities)[(user, rarity)] else 0) + count
    {
      var key := (user, rarity);
      rarities := rarities[key := if key in rarities then rarities[key] + count else count];
    }

    /** `get_user_rarity_count`: the user's owned amount of cards of that rarity, 0 when there is none. */
    function GetUserRarityCount(user: int, rarity: string): (n: int)
      reads this
      ensures Joined(owned, cards, user, rarity) == [] ==> n == 0
      ensures Valid() ==> n == OwnedOfRarity(owned, cards, user, rarity)
    {
      if UniqueIds(cards) then
        RarityCountByCatalog(owned, cards, user, rarity);
        RarityCount(owned, cards, user, rarity)
      else
        RarityCount(owned, cards, user, rarity)
    }
  }

  /**
   * A session on a database whose tables hold no rows: register user 42,
   * credit and claim for them. The column set passed in is empty, so after
   * opening it holds only the four patched columns; the session reads none of them.
   */
  method BalanceScenario()
  {
    var db := new Database.Open(map[], map[], map[], map[], map[], [], []);
    db.AddUser(42);
    var newcomer := NewUser(None, None);
    assert db.users[42] == newcomer;
    var kwargs := [("daily", 3), ("weekly", 2)];
    db.AddCrystals(42, kwargs);
    var credited := newcomer.(daily := 3, weekly := 2);
    ScenarioCredit(newcomer, kwargs, credited);
    assert db.users[42] == credited;
    assert db.GetCrystals(42) == Balance(3, 2, 0, 5, None);
    var time := "2024-01-01T00:00:00";
    db.UpdateLastClaim(42, Daily, time);
    ScenarioClaim(credited, time);
    assert db.GetCrystals(42).lastClaim == Some(time);
  }

  lemma ScenarioClaim(row: UserRow, time: string)
    requires forall c: Category :: row.Claim(c) == None
    requires time != ""
    ensures Summary(row.WithClaim(Daily, Some(time))).lastClaim == Some(time)
  {
  }

  lemma ScenarioCredit(row: UserRow, kwargs: seq<(string, int)>, credited: UserRow)
    requires row == NewUser(None, None) && kwargs == [("daily", 3), ("weekly", 2)]
    requires credited == row.(daily := 3, weekly := 2)
    ensures Credited(row, kwargs) == credited
  {
    assert AmountFor([("daily", 3), ("weekly", 2)], Daily) == 3;
    assert AmountFor([("daily", 3), ("weekly", 2)], Weekly) == 2;
    assert AmountFor([("daily", 3), ("weekly", 2)], Monthly) == 0;
  }
}
