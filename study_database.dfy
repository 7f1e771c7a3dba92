/** The cache of study 02 (`StudyDatabase` in
    studies/study_02_pypsa_eur_example/src/study_database.py): a pickle
    store that only keeps values of "custom" flags, those that do not name
    an attribute of the PyPSA network. The parent store is modelled as a
    map from cache keys to values; which attributes a network has is an
    input. */
module StudyDatabase {
  import opened Seqs
  import opened Strings

  /** What the parent store derives its cache key from. */
  datatype CacheKey = CacheKey(dataset: string, flag: string, config: string)

  /** `flag.split('.')[0]`: the text before the first '.', or the whole flag. */
  function FirstComponent(flag: string): (c: string)
    ensures '.' !in c
    ensures |c| <= |flag| && flag[..|c|] == c
    ensures '.' !in flag ==> c == flag
    ensures '.' in flag ==> |c| < |flag| && flag[|c|] == '.'
  {
    SplitFirst(flag, '.');
    Split(flag, '.')[0]
  }

  /** `_is_custom_flag`: `getattr(dataset.n, first_component)` fails. */
  predicate IsCustomFlag(networkAttributes: set<string>, flag: string)
  {
    FirstComponent(flag) !in networkAttributes
  }

  /** The store after `set`: the value is stored only for a custom flag. */
  function StoreAfterSet<V>(store: map<CacheKey, V>, networkAttributes: set<string>, key: CacheKey, value: V): (s: map<CacheKey, V>)
    ensures IsCustomFlag(networkAttributes, key.flag) ==> key in s && s[key] == value
    ensures forall k :: k != key ==> (k in s <==> k in store) && (k in s ==> s[k] == store[k])
    ensures !IsCustomFlag(networkAttributes, key.flag) ==> s == store
  {
    if IsCustomFlag(networkAttributes, key.flag) then store[key := value] else store
  }

  /** `key_is_up_to_date`: false for a non-custom flag, otherwise whether
      the parent store holds the key. */
  predicate UpToDate<V>(store: map<CacheKey, V>, networkAttributes: set<string>, key: CacheKey)
  {
    IsCustomFlag(networkAttributes, key.flag) && key in store
  }

  /** A non-custom flag is never reported up to date, not even after `set`. */
  lemma NonCustomNeverUpToDate<V>(store: map<CacheKey, V>, networkAttributes: set<string>, key: CacheKey, value: V)
    requires !IsCustomFlag(networkAttributes, key.flag)
    ensures !UpToDate(StoreAfterSet(store, networkAttributes, key, value), networkAttributes, key)
    ensures StoreAfterSet(store, networkAttributes, key, value) == store
  {
  }

  /** A custom flag is up to date right after `set`, and `set` of one key
      leaves whether any other key is up to date as it was. */
  lemma SetThenUpToDate<V>(store: map<CacheKey, V>, networkAttributes: set<string>, key: CacheKey, value: V, other: CacheKey)
    requires IsCustomFlag(networkAttributes, key.flag) && other != key
    ensures UpToDate(StoreAfterSet(store, networkAttributes, key, value), networkAttributes, key)
    ensures UpToDate(StoreAfterSet(store, networkAttributes, key, value), networkAttributes, other)
        == UpToDate(store, networkAttributes, other)
  {
  }

  /** A flag whose first component is a network attribute is not custom,
      whatever follows the first '.' (for example 'buses_t.marginal_price'
      when the network has 'buses_t'). */
  lemma AttributeFlagsAreNotCustom(networkAttributes: set<string>, attr: string, rest: string)
    requires attr in networkAttributes && '.' !in attr
    ensures !IsCustomFlag(networkAttributes, attr + "." + rest)
  {
    var flag := attr + "." + rest;
    var c := FirstComponent(flag);
    assert flag[|attr|] == '.';
    assert '.' in flag;
    assert flag[..|attr|] == attr;
  }

  /** The database: the parent store, updated in place by `set`. */
  class Database<V> {
    var store: map<CacheKey, V>

    constructor()
      ensures store == map[]
    {
      store := map[];
    }

    /** `StudyDatabase.set`. */
    method Set(networkAttributes: set<string>, key: CacheKey, value: V)
      modifies this
      ensures store == StoreAfterSet(old(store), networkAttributes, key, value)
    {
      if !IsCustomFlag(networkAttributes, key.flag) {
        return;
      }
      store := store[key := value];
    }

    /** `StudyDatabase.key_is_up_to_date`. */
    method KeyIsUpToDate(networkAttributes: set<string>, key: CacheKey) returns (b: bool)
      ensures b == UpToDate(store, networkAttributes, key)
      ensures b ==> IsCustomFlag(networkAttributes, key.flag)
    {
      if !IsCustomFlag(networkAttributes, key.flag) {
        return false;
      }
      return key in store;
    }
  }
}
