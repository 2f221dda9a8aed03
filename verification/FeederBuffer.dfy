/** The value maps of the broker feeder: pending values, the batch taken from them,
    the update request built from a batch, and what is put back after a failed send.

    The functions say what each critical section does to the maps; the class performs
    the same work the way the feeder does, one entry at a time and in no fixed order. */
module FeederBuffer {
  import opened Options

  datatype Metadata<V> = Metadata(name: string, initialValue: V)

  // ----- what the critical sections compute

  /** Adds the initial value of every configured datapoint that has no value yet.
      The first entry configured for a name wins over later entries for it. */
  function InsertInitial<V>(batch: map<string, V>, config: seq<Metadata<V>>): map<string, V>
    decreases |config|
  {
    if config == [] then batch
    else
      var m := config[0];
      InsertInitial(if m.name in batch then batch else batch[m.name := m.initialValue], config[1..])
  }

  /** The initial value of the first entry configured for `n`. */
  function ConfiguredInitial<V>(config: seq<Metadata<V>>, n: string): (r: Option<V>)
    ensures r.Some? <==> exists i :: 0 <= i < |config| && config[i].name == n
    decreases |config|
  {
    if config == [] then None
    else if config[0].name == n then Some(config[0].initialValue)
    else
      assert forall i :: 0 < i < |config| ==> config[i] == config[1..][i - 1];
      ConfiguredInitial(config[1..], n)
  }

  ghost predicate Known<V>(n: string, batch: map<string, V>, ids: map<string, int>) {
    n in batch && n in ids
  }

  /** `request` may be built from `batch`: it has exactly the ids of the batch's known names,
      and under each id the value of a name registered with that id. */
  ghost predicate IsRequest<V>(request: map<int, V>, batch: map<string, V>, ids: map<string, int>) {
    && (forall n :: Known(n, batch, ids) ==> ids[n] in request)
    && (forall id :: id in request ==> exists n :: Known(n, batch, ids) && ids[n] == id && request[id] == batch[n])
  }

  /** `n` has an id that no other name of the batch shares. */
  ghost predicate OwnId<V>(n: string, batch: map<string, V>, ids: map<string, int>) {
    n in ids && forall m :: Known(m, batch, ids) && ids[m] == ids[n] ==> m == n
  }

  /** The request carries `v` as the value of `n`. */
  ghost predicate Carries<V>(request: map<int, V>, ids: map<string, int>, n: string, v: V) {
    n in ids && ids[n] in request && request[ids[n]] == v
  }

  // ----- facts about them

  /** Pending values take precedence; every configured name is covered; nothing else is added. */
  lemma {:induction false} InsertInitialAt<V>(batch: map<string, V>, config: seq<Metadata<V>>, n: string)
    ensures var r := InsertInitial(batch, config);
      && (n in r <==> n in batch || ConfiguredInitial(config, n).Some?)
      && (n in r ==> r[n] == if n in batch then batch[n] else ConfiguredInitial(config, n).value)
    decreases |config|
  {
    if config != [] {
      var m := config[0];
      InsertInitialAt(if m.name in batch then batch else batch[m.name := m.initialValue], config[1..], n);
    }
  }

  /** A request delivers every known entry of its batch exactly when names that share an id
      agree on the value; otherwise the last one written wins and the other is lost. */
  lemma RequestDeliversAll<V>(request: map<int, V>, batch: map<string, V>, ids: map<string, int>)
    requires IsRequest(request, batch, ids)
    ensures (forall n :: Known(n, batch, ids) ==> Carries(request, ids, n, batch[n]))
       <==> (forall n, m :: Known(n, batch, ids) && Known(m, batch, ids) && ids[n] == ids[m] ==> batch[n] == batch[m])
  {
    if forall n :: Known(n, batch, ids) ==> Carries(request, ids, n, batch[n]) {
      forall n, m | Known(n, batch, ids) && Known(m, batch, ids) && ids[n] == ids[m]
        ensures batch[n] == batch[m]
      {
        assert Carries(request, ids, n, batch[n]) && Carries(request, ids, m, batch[m]);
      }
    } else {
      var n :| Known(n, batch, ids) && !Carries(request, ids, n, batch[n]);
      var id := ids[n];
      assert id in request;
      var m :| Known(m, batch, ids) && ids[m] == id && request[id] == batch[m];
      assert batch[n] != batch[m];
    }
  }

  /** For a name with an id of its own a request holds exactly what the batch holds, whatever
      other names share. */
  lemma RequestExact<V>(request: map<int, V>, batch: map<string, V>, ids: map<string, int>, n: string, v: V)
    requires IsRequest(request, batch, ids) && OwnId(n, batch, ids)
    ensures Carries(request, ids, n, v) <==> n in batch && batch[n] == v
  {
    if ids[n] in request {
      var id := ids[n];
      var m :| Known(m, batch, ids) && ids[m] == id && request[id] == batch[m];
      assert m == n;
    } else {
      assert !Known(n, batch, ids);
    }
  }

  // ----- the feeder's own code

  class Buffer<V> {
    var stored: map<string, V>
    var ids: map<string, int>
    const config: seq<Metadata<V>>

    constructor (config: seq<Metadata<V>>)
      ensures stored == map[] && ids == map[] && this.config == config
    {
      this.config := config;
      stored, ids := map[], map[];
    }

    /** Newer values overwrite stored ones. */
    method StoreValues(values: map<string, V>)
      modifies this`stored
      ensures stored == old(stored) + values
    {
      var todo := values.Keys;
      while todo != {}
        invariant todo <= values.Keys
        invariant stored == old(stored) + (map n | n in values && n !in todo :: values[n])
      {
        var name :| name in todo;
        stored := stored[name := values[name]];
        todo := todo - {name};
      }
    }

    /** Empties the store into a batch, completed with initial values on demand. */
    method TakeBatch(feedInitialValues: bool) returns (batch: map<string, V>)
      modifies this`stored
      ensures stored == map[]
      ensures batch == if feedInitialValues then InsertInitial(old(stored), config) else old(stored)
    {
      batch, stored := stored, map[];
      if feedInitialValues {
        var i := 0;
        while i < |config|
          invariant i <= |config|
          invariant InsertInitial(batch, config[i..]) == InsertInitial(old(stored), config)
        {
          if config[i].name !in batch {
            batch := batch[config[i].name := config[i].initialValue];
          }
          assert config[i..][1..] == config[i + 1..];
          i := i + 1;
        }
      }
    }

    /** Translates names to broker ids; entries of unknown names are left out. */
    method BuildRequest(batch: map<string, V>) returns (request: map<int, V>)
      ensures IsRequest(request, batch, ids)
    {
      request := map[];
      var todo := batch.Keys;
      while todo != {}
        invariant todo <= batch.Keys
        invariant IsRequest(request, map n | n in batch && n !in todo :: batch[n], ids)
      {
        var name :| name in todo;
        ghost var done := map n | n in batch && n !in todo :: batch[n];
        ghost var before := request;
        if name in ids {
          request := request[ids[name] := batch[name]];
        }
        todo := todo - {name};
        ghost var done' := map n | n in batch && n !in todo :: batch[n];
        assert done' == done[name := batch[name]];
        forall id | id in request
          ensures exists n :: Known(n, done', ids) && ids[n] == id && request[id] == done'[n]
        {
          if name in ids && ids[name] == id {
            assert Known(name, done', ids);
          } else {
            var n :| Known(n, done, ids) && ids[n] == id && before[id] == done[n];
            assert Known(n, done', ids);
          }
        }
        assert forall n :: Known(n, done', ids) ==> n == name || Known(n, done, ids);
      }
      assert batch == map n | n in batch && n !in todo :: batch[n];
    }

    /** Puts an unsent batch back; values stored meanwhile are newer and stay. */
    method RestoreValues(batch: map<string, V>)
      modifies this`stored
      ensures stored == batch + old(stored)
    {
      var todo := batch.Keys;
      while todo != {}
        invariant todo <= batch.Keys
        invariant stored == (map n | n in batch && n !in todo :: batch[n]) + old(stored)
      {
        var name :| name in todo;
        if name !in stored {
          stored := stored[name := batch[name]];
        }
        todo := todo - {name};
      }
    }

    /** One feed of everything stored, undisturbed: an acknowledged batch is gone, a failed one is
        back as it was sent. */
    method FeedStoredValues(feedInitialValues: bool, acknowledged: bool) returns (request: map<int, V>)
      modifies this`stored
      ensures var batch := if feedInitialValues then InsertInitial(old(stored), config) else old(stored);
        && IsRequest(request, batch, ids)
        && stored == if acknowledged then map[] else batch
    {
      var batch := TakeBatch(feedInitialValues);
      request := BuildRequest(batch);
      if !acknowledged {
        RestoreValues(batch);
        assert batch + map[] == batch;
      }
    }
  }
}
