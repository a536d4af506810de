/**
 * The profile store: one `user_profiles` row per user, written by a full-row
 * upsert over fixed defaults, and the `user_rarities` counters keyed by
 * (user id, rarity), which only ever grow by the amount given.
 */
module Profiles {
  import opened Wrappers

  /** One row of `user_profiles` (the key `user_id` is the map key). */
  datatype Profile = Profile(
    level: int,
    rank: string,
    badge: string,
    totalCollected: int,
    progress: int,
    balance: int,
    globalPosition: string)

  /** The `defaults` dictionary of `add_or_update_profile`, which are also the column defaults of `user_profiles`. */
  const Defaults := Profile(1, "Newbie", "None", 0, 0, 0, "Unranked")

  /** The keyword arguments of `add_or_update_profile`: each profile field either supplied or omitted. */
  datatype ProfileFields = ProfileFields(
    level: Option<int>,
    rank: Option<string>,
    badge: Option<string>,
    totalCollected: Option<int>,
    progress: Option<int>,
    balance: Option<int>,
    globalPosition: Option<string>)

  const NoFields := ProfileFields(None, None, None, None, None, None, None)

  /** Every field of `p`, all supplied: what a caller passes to write `p` back. */
  function FieldsOf(p: Profile): ProfileFields
  {
    ProfileFields(Some(p.level), Some(p.rank), Some(p.badge), Some(p.totalCollected),
                  Some(p.progress), Some(p.balance), Some(p.globalPosition))
  }

  /** Every field supplied. */
  predicate Complete(f: ProfileFields)
  {
    f.level.Some? && f.rank.Some? && f.badge.Some? && f.totalCollected.Some?
    && f.progress.Some? && f.balance.Some? && f.globalPosition.Some?
  }

  /**
   * Python's `base.update(over)` on these fields: a field supplied in `over`
   * wins, otherwise `base` keeps its own. Updating with nothing changes nothing,
   * updating with everything replaces everything, and a complete base stays complete.
   */
  function Update(base: ProfileFields, over: ProfileFields): (r: ProfileFields)
    ensures over.level.Some? ==> r.level == over.level
    ensures over.level.None? ==> r.level == base.level
    ensures over.rank.Some? ==> r.rank == over.rank
    ensures over.rank.None? ==> r.rank == base.rank
    ensures over.badge.Some? ==> r.badge == over.badge
    ensures over.badge.None? ==> r.badge == base.badge
    ensures over.totalCollected.Some? ==> r.totalCollected == over.totalCollected
    ensures over.totalCollected.None? ==> r.totalCollected == base.totalCollected
    ensures over.progress.Some? ==> r.progress == over.progress
    ensures over.progress.None? ==> r.progress == base.progress
    ensures over.balance.Some? ==> r.balance == over.balance
    ensures over.balance.None? ==> r.balance == base.balance
    ensures over.globalPosition.Some? ==> r.globalPosition == over.globalPosition
    ensures over.globalPosition.None? ==> r.globalPosition == base.globalPosition
    ensures over == NoFields ==> r == base
    ensures Complete(over) ==> r == over
    ensures Complete(base) ==> Complete(r)
  {
    ProfileFields(
      if over.level.Some? then over.level else base.level,
      if over.rank.Some? then over.rank else base.rank,
      if over.badge.Some? then over.badge else base.badge,
      if over.totalCollected.Some? then over.totalCollected else base.totalCollected,
      if over.progress.Some? then over.progress else base.progress,
      if over.balance.Some? then over.balance else base.balance,
      if over.globalPosition.Some? then over.globalPosition else base.globalPosition)
  }

  /** Two updates in a row are one update with the later fields winning. */
  lemma UpdateTwice(base: ProfileFields, first: ProfileFields, second: ProfileFields)
    ensures Update(Update(base, first), second) == Update(base, Update(first, second))
  {
  }

  /**
   * The row `add_or_update_profile(user_id, **fields)` stores: the defaults
   * updated by the supplied fields. Whatever was stored before plays no part.
   */
  function Merge(fields: ProfileFields): (p: Profile)
    ensures FieldsOf(p) == Update(FieldsOf(Defaults), fields)
  {
    Profile(
      fields.level.GetOr(Defaults.level),
      fields.rank.GetOr(Defaults.rank),
      fields.badge.GetOr(Defaults.badge),
      fields.totalCollected.GetOr(Defaults.totalCollected),
      fields.progress.GetOr(Defaults.progress),
      fields.balance.GetOr(Defaults.balance),
      fields.globalPosition.GetOr(Defaults.globalPosition))
  }

  /** Supplying every field stores exactly those values. */
  lemma MergeAllFields(p: Profile)
    ensures Merge(FieldsOf(p)) == p
  {
  }

  /** Supplying no field stores the defaults. */
  lemma MergeNoFields()
    ensures Merge(NoFields) == Defaults
  {
  }

  /**
   * Omitted fields are reset, not kept: after an upsert that supplies only the
   * level, the rank is "Newbie" whatever it was before.
   */
  lemma MergeResetsOmitted(level: int)
    ensures Merge(NoFields.(level := Some(level))) == Defaults.(level := level)
  {
  }

  /**
   * The caller-side way to keep stored values: read the stored row, update its
   * fields with the new ones and write all of them. Supplied fields take the new
   * values; every other field keeps the stored one.
   */
  lemma ReadModifyWriteKeepsOmitted(stored: Profile, fields: ProfileFields)
    ensures FieldsOf(Merge(Update(FieldsOf(stored), fields))) == Update(FieldsOf(stored), fields)
  {
  }

  /** The key of `user_rarities`. */
  type RarityKey = (int, string)

  /**
   * `INSERT … ON CONFLICT(user_id, rarity) DO UPDATE SET count = count + excluded.count`:
   * a new pair starts at `n`, an existing one grows by `n`, no other pair changes.
   */
  function Bump(counts: map<RarityKey, int>, user: int, rarity: string, n: int): (r: map<RarityKey, int>)
    ensures r.Keys == counts.Keys + {(user, rarity)}
    ensures (user, rarity) !in counts ==> r[(user, rarity)] == n
    ensures (user, rarity) in counts ==> r[(user, rarity)] == counts[(user, rarity)] + n
    ensures forall k :: k in counts && k != (user, rarity) ==> r[k] == counts[k]
  {
    var key := (user, rarity);
    counts[key := if key in counts then counts[key] + n else n]
  }

  /** Increments accumulate: bumping by `a` and then by `b` is bumping by `a + b` (three bumps of 1 give 3). */
  lemma BumpTwice(counts: map<RarityKey, int>, user: int, rarity: string, a: int, b: int)
    ensures Bump(Bump(counts, user, rarity, a), user, rarity, b) == Bump(counts, user, rarity, a + b)
  {
  }

  /** The order of increments does not matter. */
  lemma BumpCommutes(counts: map<RarityKey, int>, u1: int, r1: string, a: int, u2: int, r2: string, b: int)
    ensures Bump(Bump(counts, u1, r1, a), u2, r2, b) == Bump(Bump(counts, u2, r2, b), u1, r1, a)
  {
  }

  /** `{rarity: count for rarity, count in SELECT rarity, count FROM user_rarities WHERE user_id = ?}` */
  function RaritiesOf(counts: map<RarityKey, int>, user: int): (m: map<string, int>)
    ensures forall rarity :: rarity in m <==> (user, rarity) in counts
    ensures forall rarity :: rarity in m ==> m[rarity] == counts[(user, rarity)]
  {
    map k | k in counts && k.0 == user :: k.1 := counts[k]
  }

  /** A bump for one user leaves every other user's rarity map as it was. */
  lemma BumpOtherUser(counts: map<RarityKey, int>, user: int, rarity: string, n: int, other: int)
    requires other != user
    ensures RaritiesOf(Bump(counts, user, rarity, n), other) == RaritiesOf(counts, other)
  {
  }

  /** A bump changes the user's own rarity map at that rarity only. */
  lemma BumpOwnUser(counts: map<RarityKey, int>, user: int, rarity: string, n: int)
    ensures var after := Bump(counts, user, rarity, n);
      RaritiesOf(after, user) == RaritiesOf(counts, user)[rarity := after[(user, rarity)]]
  {
  }

  /** What `get_user_profile` returns for a user with a profile row: the profile fields and the rarity map. */
  datatype ProfileView = ProfileView(profile: Profile, rarities: map<string, int>)
}
