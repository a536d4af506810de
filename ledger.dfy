/**
 * The crystal ledger: one row of the `users` table per user id, holding three
 * independent crystal counters and a claim timestamp for each of the three
 * claim categories.
 */
module Ledger {
  import opened Wrappers
  import Timestamps

  /** A claim category. The source selects columns by the strings "daily", "weekly" and "monthly". */
  datatype Category = Daily | Weekly | Monthly {

    /** The category's name as callers spell it. */
    function Name(): string
    {
      match this
      case Daily => "daily"
      case Weekly => "weekly"
      case Monthly => "monthly"
    }

    function CrystalColumn(): string { Name() + "_crystals" }

    function ClaimColumn(): string { Name() + "_claim" }
  }

  /** The three categories address six different columns: no counter or claim column is shared. */
  lemma ColumnsDistinct(c: Category, d: Category)
    ensures c.CrystalColumn() != d.ClaimColumn()
    ensures c != d ==> c.CrystalColumn() != d.CrystalColumn() && c.ClaimColumn() != d.ClaimColumn()
  {
  }

  /** Recognises a keyword argument of `add_crystals`: exactly the three category names. */
  function ParseCategory(key: string): (c: Option<Category>)
    ensures c.Some? <==> key == "daily" || key == "weekly" || key == "monthly"
    ensures c.Some? ==> c.value.Name() == key
  {
    if key == "daily" then Some(Daily)
    else if key == "weekly" then Some(Weekly)
    else if key == "monthly" then Some(Monthly)
    else None
  }

  /** One row of the `users` table (the key `user_id` is the map key; `joined_at` is not modelled). */
  datatype UserRow = UserRow(
    username: Option<string>,
    firstName: Option<string>,
    language: Option<string>,
    daily: int,
    weekly: int,
    monthly: int,
    dailyClaim: Option<string>,
    weeklyClaim: Option<string>,
    monthlyClaim: Option<string>,
    firstLogged: int)
  {
    /** The `<category>_crystals` column. */
    function Crystals(c: Category): int
    {
      match c
      case Daily => daily
      case Weekly => weekly
      case Monthly => monthly
    }

    /** The `<category>_claim` column. */
    function Claim(c: Category): Option<string>
    {
      match c
      case Daily => dailyClaim
      case Weekly => weeklyClaim
      case Monthly => monthlyClaim
    }

    /** `SET <category>_crystals = n`: that counter becomes `n`; the other counters and every other column keep their values. */
    function WithCrystals(c: Category, n: int): (r: UserRow)
      ensures r.Crystals(c) == n
      ensures forall d: Category :: d != c ==> r.Crystals(d) == Crystals(d)
      ensures r.(daily := daily, weekly := weekly, monthly := monthly) == this
    {
      match c
      case Daily => this.(daily := n)
      case Weekly => this.(weekly := n)
      case Monthly => this.(monthly := n)
    }

    /** `SET <category>_claim = t`: that claim becomes `t`; the other claims and every other column keep their values. */
    function WithClaim(c: Category, t: Option<string>): (r: UserRow)
      ensures r.Claim(c) == t
      ensures forall d: Category :: d != c ==> r.Claim(d) == Claim(d)
      ensures r.(dailyClaim := dailyClaim, weeklyClaim := weeklyClaim, monthlyClaim := monthlyClaim) == this
    {
      match c
      case Daily => this.(dailyClaim := t)
      case Weekly => this.(weeklyClaim := t)
      case Monthly => this.(monthlyClaim := t)
    }
  }

  /** The row `INSERT OR IGNORE INTO users (user_id, username, first_name)` creates, every other column at its default. */
  function NewUser(username: Option<string>, firstName: Option<string>): (r: UserRow)
    ensures r.username == username && r.firstName == firstName && r.language == Some("en")
    ensures forall c: Category :: r.Crystals(c) == 0 && r.Claim(c) == None
    ensures r.firstLogged == 0
  {
    UserRow(username, firstName, Some("en"), 0, 0, 0, None, None, None, 0)
  }

  /** Every category name is recognised as that category. */
  lemma ParseName(c: Category)
    ensures ParseCategory(c.Name()) == Some(c)
  {
  }

  /** Sum of the amounts of the keyword arguments that name category `c`; other keys contribute nothing. */
  function AmountFor(kwargs: seq<(string, int)>, c: Category): (n: int)
    ensures (forall i :: 0 <= i < |kwargs| ==> ParseCategory(kwargs[i].0) != Some(c)) ==> n == 0
    ensures (forall i :: 0 <= i < |kwargs| ==> kwargs[i].1 >= 0) ==> n >= 0
  {
    if kwargs == [] then 0
    else
      var last := kwargs[|kwargs| - 1];
      AmountFor(kwargs[..|kwargs| - 1], c) + (if ParseCategory(last.0) == Some(c) then last.1 else 0)
  }

  lemma {:induction false} AmountForAppend(a: seq<(string, int)>, b: seq<(string, int)>, c: Category)
    ensures AmountFor(a + b, c) == AmountFor(a, c) + AmountFor(b, c)
  {
    if b != [] {
      var ab := a + b;
      assert ab[..|ab| - 1] == a + b[..|b| - 1];
      assert ab[|ab| - 1] == b[|b| - 1];
      AmountForAppend(a, b[..|b| - 1], c);
    } else {
      assert a + b == a;
    }
  }

  /** Keyword arguments none of whose keys is a category name contribute nothing to any counter. */
  lemma {:induction false} AmountForUnrecognised(kwargs: seq<(string, int)>, c: Category)
    requires forall i :: 0 <= i < |kwargs| ==> ParseCategory(kwargs[i].0).None?
    ensures AmountFor(kwargs, c) == 0
  {
  }

  /**
   * The row after `add_crystals(user_id, **kwargs)` on an existing user: each
   * counter grows by the amounts given for its category, and nothing else in
   * the row changes.
   */
  function Credited(row: UserRow, kwargs: seq<(string, int)>): (r: UserRow)
    ensures forall c: Category :: r.Crystals(c) == row.Crystals(c) + AmountFor(kwargs, c)
    ensures r.(daily := row.daily, weekly := row.weekly, monthly := row.monthly) == row
  {
    row.(daily := row.daily + AmountFor(kwargs, Daily),
         weekly := row.weekly + AmountFor(kwargs, Weekly),
         monthly := row.monthly + AmountFor(kwargs, Monthly))
  }

  /** One more keyword argument, as the loop of `add_crystals` applies it. */
  lemma CreditedStep(row: UserRow, kwargs: seq<(string, int)>, i: nat)
    requires i < |kwargs|
    ensures Credited(row, kwargs[..i + 1]) ==
      match ParseCategory(kwargs[i].0)
      case None => Credited(row, kwargs[..i])
      case Some(c) =>
        var before := Credited(row, kwargs[..i]);
        before.WithCrystals(c, before.Crystals(c) + kwargs[i].1)
  {
    assert kwargs[..i + 1][..i] == kwargs[..i];
  }

  /** Two calls add up: crediting `a` and then `b` is crediting `a + b` (so `daily=5` twice gives +10). */
  lemma CreditedTwice(row: UserRow, a: seq<(string, int)>, b: seq<(string, int)>)
    ensures Credited(Credited(row, a), b) == Credited(row, a + b)
  {
    AmountForAppend(a, b, Daily);
    AmountForAppend(a, b, Weekly);
    AmountForAppend(a, b, Monthly);
  }

  /** A single keyword argument naming category `c` adds to that counter only. */
  lemma CreditedOne(row: UserRow, c: Category, n: int)
    ensures Credited(row, [(c.Name(), n)]) == row.WithCrystals(c, row.Crystals(c) + n)
  {
    var kwargs := [(c.Name(), n)];
    assert kwargs[..0] == [];
    ParseName(c);
    assert forall d: Category :: AmountFor(kwargs, d) == if d == c then n else 0;
    match c
    case Daily =>
    case Weekly =>
    case Monthly =>
  }

  /** Keys other than the three category names are skipped: they leave the row as it was. */
  lemma CreditedIgnoresUnknownKeys(row: UserRow, kwargs: seq<(string, int)>)
    requires forall i :: 0 <= i < |kwargs| ==> ParseCategory(kwargs[i].0).None?
    ensures Credited(row, kwargs) == row
  {
    AmountForUnrecognised(kwargs, Daily);
    AmountForUnrecognised(kwargs, Weekly);
    AmountForUnrecognised(kwargs, Monthly);
  }

  /** The tuple `get_crystals` returns: `(daily, weekly, monthly, total, last_claim)`. */
  datatype Balance = Balance(daily: int, weekly: int, monthly: int, total: int, lastClaim: Option<string>)

  /** What `get_crystals` returns for a user without a row. */
  const NoBalance := Balance(0, 0, 0, 0, None)

  /** A claim counts towards `last_claim` only when it is truthy: neither NULL nor the empty string. */
  predicate Present(claim: Option<string>): (b: bool)
    ensures b <==> claim != None && claim != Some("")
  {
    claim.Some? && claim.value != ""
  }

  /** The claim as a list of at most one timestamp, empty unless the claim is truthy. */
  function Keep(claim: Option<string>): (ts: seq<string>)
    ensures |ts| <= 1
    ensures forall t :: t in ts <==> claim == Some(t) && t != ""
  {
    if Present(claim) then [claim.value] else []
  }

  /** `[ts for ts in [daily_c, weekly_c, monthly_c] if ts]` */
  function PresentClaims(row: UserRow): (ts: seq<string>)
    ensures forall t :: t in ts <==> exists c: Category :: Present(row.Claim(c)) && row.Claim(c).value == t
  {
    var ts := Keep(row.dailyClaim) + Keep(row.weeklyClaim) + Keep(row.monthlyClaim);
    PresentClaimsCover(row, ts);
    ts
  }

  lemma PresentClaimsCover(row: UserRow, ts: seq<string>)
    requires ts == Keep(row.dailyClaim) + Keep(row.weeklyClaim) + Keep(row.monthlyClaim)
    ensures forall c: Category :: Present(row.Claim(c)) ==> row.Claim(c).value in ts
    ensures forall t :: t in ts ==> exists c: Category :: Present(row.Claim(c)) && row.Claim(c).value == t
  {
    forall c: Category | Present(row.Claim(c))
      ensures row.Claim(c).value in ts
    {
      match c
      case Daily =>
      case Weekly =>
      case Monthly =>
    }
    forall t | t in ts
      ensures exists c: Category :: Present(row.Claim(c)) && row.Claim(c).value == t
    {
      if t in Keep(row.dailyClaim) {
        assert Present(row.Claim(Daily)) && row.Claim(Daily).value == t;
      } else if t in Keep(row.weeklyClaim) {
        assert Present(row.Claim(Weekly)) && row.Claim(Weekly).value == t;
      } else {
        assert Present(row.Claim(Monthly)) && row.Claim(Monthly).value == t;
      }
    }
  }

  /**
   * `get_crystals` for a user that has a row: the three counters, their total,
   * and the latest of the non-empty claim timestamps (None when there is none).
   */
  function Summary(row: UserRow): (b: Balance)
    ensures b.daily == row.daily && b.weekly == row.weekly && b.monthly == row.monthly
    ensures b.total == b.daily + b.weekly + b.monthly
    ensures b.lastClaim.None? <==> forall c: Category :: !Present(row.Claim(c))
    ensures b.lastClaim.Some? ==>
      && (exists c: Category :: Present(row.Claim(c)) && row.Claim(c).value == b.lastClaim.value)
      && (forall c: Category :: Present(row.Claim(c)) ==> Timestamps.LessEq(row.Claim(c).value, b.lastClaim.value))
  {
    var last := Timestamps.Latest(PresentClaims(row));
    Balance(row.daily, row.weekly, row.monthly, row.daily + row.weekly + row.monthly, last)
  }

  /** A freshly registered user has nothing: all counters 0 and no claim. */
  lemma NewUserHasNoBalance(username: Option<string>, firstName: Option<string>)
    ensures Summary(NewUser(username, firstName)) == NoBalance
  {
  }

  /** Crediting changes the counters and the total, never `last_claim`. */
  lemma CreditKeepsLastClaim(row: UserRow, kwargs: seq<(string, int)>)
    ensures Summary(Credited(row, kwargs)).lastClaim == Summary(row).lastClaim
    ensures Summary(Credited(row, kwargs)).total ==
      Summary(row).total + AmountFor(kwargs, Daily) + AmountFor(kwargs, Weekly) + AmountFor(kwargs, Monthly)
  {
  }

  /**
   * Recording a non-empty claim timestamp `t` for any category makes
   * `last_claim` at least `t`, and leaves the counters alone.
   */
  lemma ClaimRaisesLastClaim(row: UserRow, c: Category, t: string)
    requires t != ""
    ensures var b := Summary(row.WithClaim(c, Some(t)));
      && b.lastClaim.Some?
      && Timestamps.LessEq(t, b.lastClaim.value)
      && b.total == Summary(row).total
  {
  }

  /**
   * The order in which `get_crystals` lists the three claims does not matter:
   * taking them monthly first gives the same `last_claim`.
   */
  lemma SummaryLastClaimAnyOrder(row: UserRow)
    ensures Summary(row).lastClaim ==
      Timestamps.Latest(Keep(row.monthlyClaim) + Keep(row.weeklyClaim) + Keep(row.dailyClaim))
  {
    var forward := Keep(row.dailyClaim) + Keep(row.weeklyClaim) + Keep(row.monthlyClaim);
    var backward := Keep(row.monthlyClaim) + Keep(row.weeklyClaim) + Keep(row.dailyClaim);
    assert multiset(forward) == multiset(backward);
    Timestamps.LatestIgnoresOrder(forward, backward);
  }
}
