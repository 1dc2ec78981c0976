/**
 * The ledger `.migrated.json`: a map from migration file name to the entry
 * `{migrated_at: <date>}` written when that migration went up.
 */
module Ledger {
  import opened Js

  /** `{migrated_at: new Date()}`, the date as milliseconds since the epoch. */
  datatype Entry = Entry(migratedAt: nat)

  type History = map<string, Entry>

  /**
   * The one-key change `saveProgress` makes: going down deletes the file's
   * entry (nothing happens when there is none), going up sets it.
   */
  function Saved(migrated: History, file: string, down: bool, entry: Entry): (r: History)
    ensures forall k :: k != file ==> (k in r <==> k in migrated)
    ensures forall k :: k != file && k in migrated ==> r[k] == migrated[k]
    ensures down ==> file !in r
    ensures !down ==> file in r && r[file] == entry
  {
    if down then migrated - {file} else migrated[file := entry]
  }

  /** Going up and then down again leaves the ledger as it was, less the file. */
  lemma UpThenDown(migrated: History, file: string, entry: Entry)
    ensures Saved(Saved(migrated, file, false, entry), file, true, entry) == migrated - {file}
    ensures file !in migrated ==> Saved(Saved(migrated, file, false, entry), file, true, entry) == migrated
  {
    var r := Saved(Saved(migrated, file, false, entry), file, true, entry);
    assert r.Keys == migrated.Keys - {file};
    if file !in migrated {
      assert migrated - {file} == migrated;
    }
  }

  /** Going down and then up again records the new entry and keeps the rest. */
  lemma DownThenUp(migrated: History, file: string, entry: Entry)
    ensures Saved(Saved(migrated, file, true, entry), file, false, entry) == migrated[file := entry]
  {
    var r := Saved(Saved(migrated, file, true, entry), file, false, entry);
    assert r.Keys == migrated.Keys + {file};
  }

  /** The in-memory ledger the runner keeps for one run, mutated in place. */
  class Progress {
    var migrated: History

    constructor (loaded: History)
      ensures migrated == loaded
    {
      migrated := loaded;
    }

    /**
     * `saveProgress(migrated, file, cb)`: change the file's entry, then write
     * the whole ledger. The outcome of the write (`writeError`) is an input;
     * `written` is what `JSON.stringify` would serialise.
     */
    method SaveProgress(file: string, down: bool, now: nat, writeError: Option<string>)
      returns (written: History, err: Option<string>)
      modifies this
      ensures migrated == Saved(old(migrated), file, down, Entry(now))
      ensures written == migrated && err == writeError
    {
      if down {
        if file in migrated {
          migrated := migrated - {file};
        }
      } else {
        migrated := migrated[file := Entry(now)];
      }
      written := migrated;
      err := writeError;
    }
  }
}
