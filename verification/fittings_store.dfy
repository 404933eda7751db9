/**
 * The in-memory fittings registry: a dictionary from a fitting's code to its record,
 * seeded with one check valve and changed only by insert-or-overwrite keyed by the code.
 */
module FittingsStore {
  import opened Wrappers

  /** A fitting record; the pressure and the material are optional. */
  datatype Fitting = Fitting(code: string, description: string, series: string,
                             configuration: string, crackingPressure: Option<string>,
                             material: Option<string>)

  const SeedCode: string := "4A-C4L-25-SS"

  /** The one record the registry starts with. */
  const SeedFitting: Fitting :=
    Fitting(SeedCode, "Check valve", "4A", "C4L", Some("25 psi"), Some("stainless steel"))

  /** The seeded dictionary already keeps its one record under that record's code. */
  function Seeded(): (m: map<string, Fitting>)
    ensures KeyedByCode(m)
  {
    map[SeedCode := SeedFitting]
  }

  /** The registry after the records of `added` were registered, in that order, on the seed. */
  function Replay(added: seq<Fitting>): (m: map<string, Fitting>)
    ensures SeedCode in m
    ensures forall i :: 0 <= i < |added| ==> added[i].code in m
  {
    if added == [] then Seeded()
    else Replay(added[..|added| - 1])[added[|added| - 1].code := added[|added| - 1]]
  }

  /** Every key is the code of the record stored under it. */
  predicate KeyedByCode(m: map<string, Fitting>)
  {
    forall k :: k in m ==> m[k].code == k
  }

  /** Record `i` is the last one of `added` registered under `code`. */
  predicate IsLatest(added: seq<Fitting>, i: int, code: string)
  {
    && 0 <= i < |added|
    && added[i].code == code
    && forall j :: i < j < |added| ==> added[j].code != code
  }

  /** The seed and every registration keep each record under its own code. */
  lemma {:induction false} ReplayKeyedByCode(added: seq<Fitting>)
    ensures KeyedByCode(Replay(added))
  {
    if added != [] {
      ReplayKeyedByCode(added[..|added| - 1]);
    }
  }

  /** A code is present after a history exactly when it is the seed's or some record was
      registered under it. */
  lemma {:induction false} ReplayHasCode(added: seq<Fitting>, code: string)
    ensures code in Replay(added)
        <==> code == SeedCode || exists i :: 0 <= i < |added| && added[i].code == code
  {
    if added != [] {
      var init := added[..|added| - 1];
      ReplayHasCode(init, code);
      if exists i :: 0 <= i < |init| && init[i].code == code {
        var i :| 0 <= i < |init| && init[i].code == code;
        assert added[i].code == code;
      }
      if exists i :: 0 <= i < |added| && added[i].code == code {
        var i :| 0 <= i < |added| && added[i].code == code;
        if i < |init| {
          assert init[i].code == code;
        }
      }
    }
  }

  /** The last record registered under a code is the one found under it. */
  lemma {:induction false} ReplayLatestWins(added: seq<Fitting>, code: string, i: int)
    requires IsLatest(added, i, code)
    ensures code in Replay(added) && Replay(added)[code] == added[i]
  {
    var init := added[..|added| - 1];
    if i < |added| - 1 {
      assert IsLatest(init, i, code);
      ReplayLatestWins(init, code, i);
    }
  }

  /** The seed's record is found while nothing was registered under its code. */
  lemma {:induction false} ReplaySeedKept(added: seq<Fitting>)
    requires forall i :: 0 <= i < |added| ==> added[i].code != SeedCode
    ensures SeedCode in Replay(added) && Replay(added)[SeedCode] == SeedFitting
  {
    if added != [] {
      ReplaySeedKept(added[..|added| - 1]);
    }
  }

  /** The registry as one mutable dictionary, as in the source module. */
  class Registry {
    var fittings: map<string, Fitting>
    /** The records registered so far, in order; the dictionary is determined by them. */
    ghost var added: seq<Fitting>

    /** The dictionary is the seed followed by the registrations; so every key is its record's code. */
    ghost predicate Valid()
      reads this
      ensures Valid() ==> KeyedByCode(fittings)
    {
      ReplayKeyedByCode(added);
      fittings == Replay(added)
    }

    /** The registry starts with the seeded check valve only. */
    constructor ()
      ensures Valid() && added == []
      ensures fittings == Seeded()
    {
      fittings := Seeded();
      added := [];
    }

    /** The record stored under `code`, or nothing; the stored record carries that code. */
    function Get(code: string): (r: Option<Fitting>)
      requires Valid()
      reads this
      ensures r.Some? <==> code in fittings
      ensures r.Some? ==> r.value.code == code && r.value == fittings[code]
    {
      if code in fittings then Some(fittings[code]) else None
    }

    /** Adds `f` under its code, replacing any record already there; other codes keep theirs. */
    method Add(f: Fitting)
      requires Valid()
      modifies this
      ensures Valid() && added == old(added) + [f]
      ensures fittings == old(fittings)[f.code := f]
      ensures Get(f.code) == Some(f)
      ensures forall code :: code != f.code ==> Get(code) == old(Get(code))
    {
      fittings := fittings[f.code := f];
      added := added + [f];
      assert added[..|added| - 1] == old(added);
    }
  }

  /** The seeded record is found under its code, and it describes a check valve. */
  lemma SeedIsFound()
    ensures SeedCode in Replay([]) && Replay([])[SeedCode].description == "Check valve"
    ensures forall code :: code != SeedCode ==> code !in Replay([])
  {
  }

  /** A record just added is found under its code, whatever was stored there before. */
  lemma AddedIsFound(f: Fitting, added: seq<Fitting>)
    ensures f.code in Replay(added + [f]) && Replay(added + [f])[f.code] == f
  {
    assert (added + [f])[..|added|] == added;
  }
}
