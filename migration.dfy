/**
 * The one-shot copy of three legacy `localStorage` keys into the durable
 * store (`migrateFromLocalStorage`). A completion flag, set after one pass
 * whatever happened to the individual keys, keeps later runs from copying
 * again.
 */
module Migration {
  import opened Base
  import opened Storage

  const MIGRATION_KEY: string := "idb-migration-completed"

  /** The keys copied, in the order they are copied. */
  const STORAGE_KEYS: seq<string> := [
    "youtube-player-favorites",
    "youtube-player-favorite-videos",
    "favorite-area-height"
  ]

  /** How a run ended. */
  datatype Outcome =
    | AlreadyMigrated            // the flag was truthy: nothing was read or written
    | Migrated(count: nat)       // one pass done and the flag written
    | FlagRejected(count: nat)   // one pass done, but the flag write was rejected (the run rejects)

  /**
   * One key: a missing legacy value is skipped. Otherwise the parsed value is
   * written; when parsing fails or that write is rejected the raw text is
   * written instead; when that is rejected too, the key is logged and skipped.
   * The second component says whether a write was accepted.
   */
  function CopyKey(items: map<string, Json>, key: string, legacy: map<string, string>,
                   parse: string -> Option<Json>, accept: (string, Json) -> bool): (map<string, Json>, bool)
  {
    if key !in legacy then (items, false)
    else
      var raw := legacy[key];
      var parsed := parse(raw);
      if parsed.Some? && accept(key, parsed.value) then (items[key := parsed.value], true)
      else if accept(key, JStr(raw)) then (items[key := JStr(raw)], true)
      else (items, false)
  }

  /** The store and the count after copying `keys` one after the other. */
  function CopyKeys(items: map<string, Json>, keys: seq<string>, legacy: map<string, string>,
                    parse: string -> Option<Json>, accept: (string, Json) -> bool): (map<string, Json>, nat)
  {
    if keys == [] then (items, 0)
    else
      var (before, count) := CopyKeys(items, keys[..|keys| - 1], legacy, parse, accept);
      var (after, copied) := CopyKey(before, keys[|keys| - 1], legacy, parse, accept);
      (after, if copied then count + 1 else count)
  }

  /** A whole run, from the durable store's contents before it. */
  function Migrate(items: map<string, Json>, legacy: map<string, string>,
                   parse: string -> Option<Json>, accept: (string, Json) -> bool): (map<string, Json>, Outcome)
  {
    if Truthy(Lookup(items, MIGRATION_KEY)) then (items, AlreadyMigrated)
    else
      var (copied, count) := CopyKeys(items, STORAGE_KEYS, legacy, parse, accept);
      if accept(MIGRATION_KEY, JBool(true)) then (copied[MIGRATION_KEY := JBool(true)], Migrated(count))
      else (copied, FlagRejected(count))
  }

  /** What the durable store holds under `key` after that key was copied from `raw`. */
  function CopiedValue(key: string, raw: string, parse: string -> Option<Json>,
                       accept: (string, Json) -> bool): Option<Json>
  {
    var parsed := parse(raw);
    if parsed.Some? && accept(key, parsed.value) then Some(parsed.value)
    else if accept(key, JStr(raw)) then Some(JStr(raw))
    else None
  }

  /** Whether copying `key` ends with an accepted write. */
  predicate Copied(key: string, legacy: map<string, string>, parse: string -> Option<Json>,
                   accept: (string, Json) -> bool)
  {
    key in legacy && CopiedValue(key, legacy[key], parse, accept).Some?
  }

  /**
   * Copying a list of distinct keys touches only those keys; each ends up with
   * its copied value, or as it was when there was no legacy value or every
   * write for it was rejected; the count is the number of keys copied.
   */
  lemma {:induction false} CopyKeysSpec(items: map<string, Json>, keys: seq<string>, legacy: map<string, string>,
                                        parse: string -> Option<Json>, accept: (string, Json) -> bool)
    requires forall i, j :: 0 <= i < j < |keys| ==> keys[i] != keys[j]
    ensures var (after, count) := CopyKeys(items, keys, legacy, parse, accept);
      && (forall k :: k !in keys ==> Lookup(after, k) == Lookup(items, k))
      && (forall k :: k in keys && !Copied(k, legacy, parse, accept) ==> Lookup(after, k) == Lookup(items, k))
      && (forall k :: k in keys && Copied(k, legacy, parse, accept) ==>
            Lookup(after, k) == CopiedValue(k, legacy[k], parse, accept))
      && count == CountCopied(keys, legacy, parse, accept)
  {
    if keys != [] {
      var init := keys[..|keys| - 1];
      var last := keys[|keys| - 1];
      CopyKeysSpec(items, init, legacy, parse, accept);
      CopyKeySpec(CopyKeys(items, init, legacy, parse, accept).0, last, legacy, parse, accept);
      assert forall k :: k in keys <==> k in init || k == last;
      assert last !in init;
    }
  }

  /** Copying one key touches only that key, and counts exactly when it is copied. */
  lemma CopyKeySpec(items: map<string, Json>, key: string, legacy: map<string, string>,
                    parse: string -> Option<Json>, accept: (string, Json) -> bool)
    ensures var (after, copied) := CopyKey(items, key, legacy, parse, accept);
      && copied == Copied(key, legacy, parse, accept)
      && (forall k :: k != key ==> Lookup(after, k) == Lookup(items, k))
      && Lookup(after, key) == if copied then CopiedValue(key, legacy[key], parse, accept) else Lookup(items, key)
  {
  }

  /** The number of keys of `keys` that are copied. */
  function CountCopied(keys: seq<string>, legacy: map<string, string>, parse: string -> Option<Json>,
                       accept: (string, Json) -> bool): (n: nat)
    ensures n <= |keys|
  {
    if keys == [] then 0
    else CountCopied(keys[..|keys| - 1], legacy, parse, accept)
         + (if Copied(keys[|keys| - 1], legacy, parse, accept) then 1 else 0)
  }

  /**
   * A run that finds the flag truthy writes nothing. Otherwise each listed key
   * with a legacy value holds its parsed value, or its raw text when parsing
   * failed or that write was rejected; keys without a legacy value, keys whose
   * every write was rejected, and keys not listed are untouched; the count is
   * the number of listed keys copied, at most three; and the flag is set
   * whenever its own write is accepted, however many keys failed, and left as
   * it was when that write is rejected.
   */
  lemma MigrateSpec(items: map<string, Json>, legacy: map<string, string>,
                    parse: string -> Option<Json>, accept: (string, Json) -> bool)
    ensures var (after, outcome) := Migrate(items, legacy, parse, accept);
      if Truthy(Lookup(items, MIGRATION_KEY)) then
        after == items && outcome == AlreadyMigrated
      else
        && (outcome.Migrated? <==> accept(MIGRATION_KEY, JBool(true)))
        && (outcome.Migrated? ==> Lookup(after, MIGRATION_KEY) == Some(JBool(true)))
        && (outcome.FlagRejected? ==> Lookup(after, MIGRATION_KEY) == Lookup(items, MIGRATION_KEY))
        && !outcome.AlreadyMigrated?
        && outcome.count == CountCopied(STORAGE_KEYS, legacy, parse, accept) <= 3
        && (forall k :: k !in STORAGE_KEYS && k != MIGRATION_KEY ==> Lookup(after, k) == Lookup(items, k))
        && (forall k :: k in STORAGE_KEYS && !Copied(k, legacy, parse, accept) ==> Lookup(after, k) == Lookup(items, k))
        && (forall k :: k in STORAGE_KEYS && Copied(k, legacy, parse, accept) ==>
              Lookup(after, k) == CopiedValue(k, legacy[k], parse, accept))
  {
    assert MIGRATION_KEY !in STORAGE_KEYS;
    CopyKeysSpec(items, STORAGE_KEYS, legacy, parse, accept);
  }

  /**
   * A second run after a completed one copies nothing and changes nothing,
   * whatever the legacy store holds by then.
   */
  lemma SecondRunIsNoop(items: map<string, Json>, legacy: map<string, string>, legacy2: map<string, string>,
                        parse: string -> Option<Json>, accept: (string, Json) -> bool)
    requires Migrate(items, legacy, parse, accept).1.Migrated?
    ensures var after := Migrate(items, legacy, parse, accept).0;
      Migrate(after, legacy2, parse, accept) == (after, AlreadyMigrated)
  {
    MigrateSpec(items, legacy, parse, accept);
  }

  /**
   * `migrateFromLocalStorage`. The legacy store is only read; the durable
   * store ends as `Migrate` says.
   */
  method MigrateFromLocalStorage(store: DurableStore, legacy: LocalStorage,
                                 parse: string -> Option<Json>, accept: (string, Json) -> bool)
    returns (outcome: Outcome)
    modifies store
    ensures (store.items, outcome) == Migrate(old(store.items), legacy.items, parse, accept)
  {
    var migrated := store.GetItem(MIGRATION_KEY);
    if Truthy(migrated) {
      return AlreadyMigrated;
    }
    var migratedCount := 0;
    for n := 0 to |STORAGE_KEYS|
      invariant (store.items, migratedCount) == CopyKeys(old(store.items), STORAGE_KEYS[..n], legacy.items, parse, accept)
    {
      var key := STORAGE_KEYS[n];
      assert STORAGE_KEYS[..n + 1][..n] == STORAGE_KEYS[..n];
      var value := legacy.GetItem(key);
      if value.Some? {
        var parsed := parse(value.value);
        var ok := false;
        if parsed.Some? {
          ok := store.SetItem(key, parsed.value, accept);
        }
        if !ok {
          ok := store.SetItem(key, JStr(value.value), accept);
        }
        if ok {
          migratedCount := migratedCount + 1;
        }
      }
    }
    assert STORAGE_KEYS[..|STORAGE_KEYS|] == STORAGE_KEYS;
    var flagged := store.SetItem(MIGRATION_KEY, JBool(true), accept);
    outcome := if flagged then Migrated(migratedCount) else FlagRejected(migratedCount);
  }
}
