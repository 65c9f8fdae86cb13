/** The saved registry file, and what a boot makes of it. */
module Persistence {
  import opened Outcomes
  import opened Registry

  datatype Saved = Saved(id: string, region: string, port: int)

  /** The JSON library: what was written can be read back. */
  datatype Codec = Codec(encode: seq<Saved> -> string, decode: string -> Option<seq<Saved>>)

  ghost predicate Inverse(c: Codec) {
    forall list :: c.decode(c.encode(list)) == Some(list)
  }

  // ----- the file

  /** The files under `data/`: the registry, its temporary copy and a backup. */
  class Store {
    var main: Option<string>
    var tmp: Option<string>
    var corrupt: Option<string>

    constructor (main: Option<string>)
      ensures this.main == main && tmp == None && corrupt == None
    {
      this.main, tmp, corrupt := main, None, None;
    }

    /** Writes the temporary file character by character and renames it. Only
        `budget` steps are carried out, because the manager crashes or the disk
        refuses: the registry file is whole at every point, the old one until the
        very last step and the new one after it. */
    method SaveInstances(list: seq<Saved>, codec: Codec, budget: nat) returns (finished: bool)
      modifies this
      ensures finished <==> budget >= |codec.encode(list)| + 2
      ensures main == if finished then Some(codec.encode(list)) else old(main)
      ensures finished ==> tmp == None
      ensures !finished && budget > 0 ==> tmp == Some(codec.encode(list)[..budget - 1])
      ensures corrupt == old(corrupt)
    {
      var data := codec.encode(list);
      if budget == 0 {
        return false;
      }
      tmp := Some("");
      for i := 0 to |data|
        invariant main == old(main) && corrupt == old(corrupt)
        invariant i < budget && tmp == Some(data[..i])
      {
        if i + 1 == budget {
          return false;
        }
        tmp := Some(data[..i] + [data[i]]);
        assert data[..i] + [data[i]] == data[..i + 1];
      }
      assert data[..|data|] == data;
      if budget == |data| + 1 {
        return false;
      }
      main, tmp := tmp, None;
      return true;
    }

    /** Reads the file; one that cannot be decoded is set aside and read as empty. */
    method LoadInstance(codec: Codec) returns (list: seq<Saved>)
      modifies this
      ensures list == Readable(old(main), codec)
      ensures old(main).Some? && codec.decode(old(main).value).None? ==> main == None && corrupt == old(main)
      ensures !(old(main).Some? && codec.decode(old(main).value).None?) ==> main == old(main) && corrupt == old(corrupt)
      ensures tmp == old(tmp)
    {
      if main == None {
        return [];
      }
      var decoded := codec.decode(main.value);
      if decoded == None {
        corrupt, main := main, None;
        return [];
      }
      return decoded.value;
    }
  }

  function Readable(file: Option<string>, codec: Codec): seq<Saved> {
    if file.None? then []
    else var d := codec.decode(file.value); if d.None? then [] else d.value
  }

  /** A crash at any point of a save leaves a boot with the whole old registry or
      the whole new one, the new one exactly when the save had finished. */
  method SaveCrashLoad(store: Store, list: seq<Saved>, codec: Codec, budget: nat) returns (loaded: seq<Saved>)
    requires Inverse(codec)
    modifies store
    ensures loaded == if budget >= |codec.encode(list)| + 2 then list else Readable(old(store.main), codec)
  {
    var finished := store.SaveInstances(list, codec, budget);
    loaded := store.LoadInstance(codec);
  }

  // ----- the boot

  predicate Listed(list: seq<Saved>, id: string) {
    exists i :: 0 <= i < |list| && list[i].id == id
  }

  /** No account is listed twice among the first `n` entries. */
  predicate UniqueSaved(list: seq<Saved>, n: nat)
    requires n <= |list|
  {
    forall i, j :: 0 <= i < j < n ==> list[i].id != list[j].id
  }

  /** The first entry of every account among the first `n`, in file order. */
  function FirstEntries(list: seq<Saved>, n: nat): (r: seq<Saved>)
    requires n <= |list|
    ensures |r| <= n
  {
    if n == 0 then []
    else
      var r := FirstEntries(list, n - 1);
      if Listed(r, list[n - 1].id) then r else r + [list[n - 1]]
  }

  lemma {:induction false} FirstEntriesIds(list: seq<Saved>, n: nat, id: string)
    requires n <= |list|
    ensures Listed(FirstEntries(list, n), id) <==> exists i :: 0 <= i < n && list[i].id == id
  {
    if n == 0 {
    } else {
      FirstEntriesIds(list, n - 1, id);
      var r := FirstEntries(list, n - 1);
      if !Listed(r, list[n - 1].id) {
        assert (r + [list[n - 1]])[|r|].id == list[n - 1].id;
        assert forall i :: 0 <= i < |r| ==> (r + [list[n - 1]])[i] == r[i];
      }
    }
  }

  /** The boot waits for as many instances as it registered, and registers all of
      the file, exactly when no account is listed twice. */
  lemma {:induction false} ShouldStartIff(list: seq<Saved>, n: nat)
    requires n <= |list|
    ensures |FirstEntries(list, n)| == n <==> UniqueSaved(list, n)
    ensures UniqueSaved(list, n) ==> FirstEntries(list, n) == list[..n]
  {
    if n == 0 {
    } else {
      ShouldStartIff(list, n - 1);
      FirstEntriesIds(list, n - 1, list[n - 1].id);
      if UniqueSaved(list, n) {
        assert list[..n] == list[..n - 1] + [list[n - 1]];
      }
    }
  }

  function SavedOf(s: seq<WrapperInstance>): (r: seq<Saved>)
    reads s
    ensures |r| == |s|
    ensures forall i :: 0 <= i < |s| ==> r[i] == Saved(s[i].id, s[i].region, s[i].port)
  {
    seq(|s|, i requires 0 <= i < |s| reads s => Saved(s[i].id, s[i].region, s[i].port))
  }

  method RestoreOne(registry: InstanceRegistry, inst: Saved)
    requires registry.Valid()
    modifies registry, registry.data, registry.circuits
    ensures registry.Valid() && (registry.data == old(registry.data) || fresh(registry.data))
    ensures forall x :: x in registry.Contents() ==> x in old(registry.Contents()) || fresh(x)
    ensures SavedOf(registry.Contents()) ==
            if Listed(old(SavedOf(registry.Contents())), inst.id) then old(SavedOf(registry.Contents()))
            else old(SavedOf(registry.Contents())) + [inst]
  {
    ghost var before := registry.Contents();
    var restored := new WrapperInstance(inst.id, inst.region, inst.port);
    assert Has(before, restored.id) <==> Listed(SavedOf(before), inst.id);
    registry.InsertInstance(restored);
  }

  /** Registers the saved accounts in file order, before anything is started. */
  method Restore(registry: InstanceRegistry, list: seq<Saved>) returns (shouldStart: nat, ready: bool)
    requires registry.Valid() && registry.Contents() == []
    modifies registry, registry.data, registry.circuits
    ensures registry.Valid() && SavedOf(registry.Contents()) == FirstEntries(list, |list|)
    ensures forall x :: x in registry.Contents() ==> fresh(x)
    ensures shouldStart == |list| && (ready <==> list == [])
  {
    shouldStart := |list|;
    ready := shouldStart == 0;
    for i := 0 to |list|
      invariant registry.Valid() && (forall x :: x in registry.Contents() ==> fresh(x))
      invariant registry.data == old(registry.data) || fresh(registry.data)
      invariant SavedOf(registry.Contents()) == FirstEntries(list, i)
    {
      RestoreOne(registry, list[i]);
    }
  }

  /** Saving a registry, crashing after the save and booting rebuilds the same
      accounts with the same regions and ports in the same order, and waits for
      exactly that many. */
  method SaveThenBoot(registry: InstanceRegistry, store: Store, codec: Codec)
    returns (rebooted: InstanceRegistry, shouldStart: nat)
    requires registry.Valid() && Inverse(codec)
    modifies store
    ensures rebooted.Valid() && SavedOf(rebooted.Contents()) == old(SavedOf(registry.Contents()))
    ensures shouldStart == |rebooted.Contents()|
  {
    var list := CollectSaved(registry);
    RegistryIsOrderedMap(registry.ops);
    ShouldStartIff(list, |list|);
    assert list[..|list|] == list;
    var finished := store.SaveInstances(list, codec, |codec.encode(list)| + 2);
    var loaded := store.LoadInstance(codec);
    rebooted := new InstanceRegistry();
    var ready;
    shouldStart, ready := Restore(rebooted, loaded);
  }

  method CollectSaved(registry: InstanceRegistry) returns (list: seq<Saved>)
    requires registry.Valid()
    ensures list == SavedOf(registry.Contents())
  {
    list := [];
    var all := registry.SnapshotInstances();
    for i := 0 to all.Length
      invariant all[..] == registry.Contents() && |list| == i
      invariant forall k :: 0 <= k < i ==> list[k] == SavedOf(registry.Contents())[k]
    {
      assert all[..][i] == registry.Contents()[i];
      list := list + [Saved(all[i].id, all[i].region, all[i].port)];
    }
  }
}
