/**
 * The module-level `synthesizers` Map of src/index.tsx: at most one live
 * synthesizer per voice key, created on first use and disposed on uninstall.
 */
module Registry {

  /** A synthesizer, known by the order in which `makeSynthesizer` created it. */
  type SynthId = nat

  class SynthRegistry {
    /** voice key to the live synthesizer for it */
    var synths: map<string, SynthId>
    /** how many synthesizers have been created; the next one gets this id */
    var created: nat
    /** synthesizers whose `dispose()` has been called */
    var disposed: set<SynthId>

    /** Every mapped synthesizer exists, is live, and serves one key only. */
    ghost predicate Valid()
      reads this
    {
      && (forall k | k in synths :: synths[k] < created && synths[k] !in disposed)
      && (forall k1, k2 | k1 in synths && k2 in synths && k1 != k2 :: synths[k1] != synths[k2])
      && (forall s | s in disposed :: s < created)
    }

    constructor ()
      ensures Valid()
      ensures synths == map[] && created == 0 && disposed == {}
    {
      synths, created, disposed := map[], 0, {};
    }

    /**
     * `synthesizers.get(key) ?? (makeSynthesizer(key), synthesizers.set(key, ...))`:
     * the existing synthesizer when there is one, otherwise a fresh one that is stored.
     */
    method GetOrCreate(key: string) returns (s: SynthId, isNew: bool)
      requires Valid()
      modifies this
      ensures Valid()
      ensures isNew == (key !in old(synths))
      ensures !isNew ==> s == old(synths)[key] && synths == old(synths) && created == old(created)
      ensures isNew ==> s == old(created) && synths == old(synths)[key := s] && created == old(created) + 1
      ensures disposed == old(disposed)
      ensures s !in disposed && key in synths && synths[key] == s
    {
      if key in synths {
        s, isNew := synths[key], false;
      } else {
        s, isNew := created, true;
        synths := synths[key := s];
        created := created + 1;
      }
    }

    /**
     * `synthesizers.get(key)?.dispose(); synthesizers.delete(key)`: disposes and forgets
     * the synthesizer of `key` only; a key with none is left alone.
     */
    method Remove(key: string)
      requires Valid()
      modifies this
      ensures Valid()
      ensures synths == old(synths) - {key}
      ensures disposed == if key in old(synths) then old(disposed) + {old(synths)[key]} else old(disposed)
      ensures created == old(created)
    {
      if key in synths {
        disposed := disposed + {synths[key]};
      }
      synths := synths - {key};
    }
  }
}
