/** The cache manager of one process, when nobody interferes. */
module VendorObjects {
  import opened Basics
  import opened VendorCache

  class VendorCacheManager {
    const targets: seq<Key>
    const required: Key -> seq<File>
    var entries: map<Key, Entry>
    var workspaces: map<Key, Workspace>
    var hits: set<Key>
    var misses: set<Key>

    ghost predicate EntryReady(key: Key)
      reads this
    {
      key in entries && Ready(required(key), entries[key])
    }

    constructor (ts: seq<Key>, req: Key -> seq<File>, found: map<Key, Entry>, ws: map<Key, Workspace>)
      ensures targets == ts && required == req && entries == found && workspaces == ws && hits == {} && misses == {}
    {
      targets, required, entries, workspaces, hits, misses := ts, req, found, ws, {}, {};
    }

    /** Stops at the first required file that is missing. */
    method IsTargetOutputValid(key: Key, files: Files) returns (valid: bool)
      ensures valid == Has(required(key), files)
    {
      var needed := required(key);
      var i := 0;
      while i < |needed|
        invariant i <= |needed| && forall k | 0 <= k < i :: needed[k] in files
      {
        if needed[i] !in files { return false; }
        i := i + 1;
      }
      return true;
    }

    method IsCacheReady(key: Key) returns (ready: bool)
      ensures ready == EntryReady(key)
    {
      if key !in entries || !entries[key].marker { return false; }
      ready := IsTargetOutputValid(key, entries[key].files);
    }

    /** Splits the targets into hits, which end linked to their entry, and misses, whose
        invalid entry and old workspace are gone. Ready entries are not touched. */
    method PrepareWorkspace()
      modifies this`entries, this`workspaces, this`hits, this`misses
      ensures hits == old(hits) + set key | key in targets && old(EntryReady(key))
      ensures misses == old(misses) + set key | key in targets && !old(EntryReady(key))
      ensures forall key | key in targets ::
                if old(EntryReady(key)) then key in workspaces && workspaces[key] == Link(key)
                else key !in entries && key !in workspaces
      ensures forall key | old(EntryReady(key)) || key !in targets ::
                key in entries <==> key in old(entries)
      ensures forall key | key in entries :: key in old(entries) && entries[key] == old(entries)[key]
    {
      var n := 0;
      while n < |targets|
        invariant n <= |targets|
        invariant hits == old(hits) + set key | key in targets[..n] && old(EntryReady(key))
        invariant misses == old(misses) + set key | key in targets[..n] && !old(EntryReady(key))
        invariant forall key | key in targets[..n] ::
                    if old(EntryReady(key)) then key in workspaces && workspaces[key] == Link(key)
                    else key !in entries && key !in workspaces
        invariant forall key | old(EntryReady(key)) || key !in targets[..n] :: key in entries <==> key in old(entries)
        invariant forall key | key in entries :: key in old(entries) && entries[key] == old(entries)[key]
      {
        assert targets[..n + 1] == targets[..n] + [targets[n]];
        PrepareTarget(targets[n]);
        n := n + 1;
      }
      assert targets[..n] == targets;
    }

    method PrepareTarget(key: Key)
      modifies this`entries, this`workspaces, this`hits, this`misses
      ensures if old(EntryReady(key))
              then workspaces == old(workspaces)[key := Link(key)] && hits == old(hits) + {key}
                   && entries == old(entries) && misses == old(misses)
              else workspaces == old(workspaces) - {key} && misses == old(misses) + {key}
                   && entries == old(entries) - {key} && hits == old(hits)
    {
      var ready := IsCacheReady(key);
      if ready {
        workspaces := workspaces[key := Link(key)];
        hits := hits + {key};
      } else {
        if key in entries {
          entries := entries - {key};
        }
        workspaces := workspaces - {key};
        misses := misses + {key};
      }
    }

    /** Publishes a valid tree; an entry that is ready already is left alone. */
    method PublishDirectory(key: Key, files: Files) returns (ok: bool)
      modifies this`entries
      ensures ok == Has(required(key), files)
      ensures !ok ==> entries == old(entries)
      ensures ok ==> EntryReady(key)
      ensures ok ==> entries == if old(EntryReady(key)) then old(entries)
                                else old(entries)[key := Entry(files, true, Some(files))]
    {
      ok := IsTargetOutputValid(key, files);
      if !ok { return; }
      var ready := IsCacheReady(key);
      if key in entries && !ready {
        entries := entries - {key};
      }
      if key in entries { return; }
      entries := entries[key := Entry(files, true, Some(files))];
      assert entries == old(entries)[key := Entry(files, true, Some(files))];
    }

    /** The files found at a workspace path, through a link if it is one. */
    function Output(w: Workspace): Option<Files>
      reads this
    {
      match w
      case Absent => None
      case Tree(files) => Some(files)
      case Link(key) => if key in entries then Some(entries[key].files) else None
    }

    function OutputAt(key: Key): Option<Files>
      reads this
    {
      if key in workspaces then Output(workspaces[key]) else None
    }

    ghost predicate Linked(key: Key)
      reads this
    {
      key in workspaces && workspaces[key] == Link(key) && EntryReady(key)
    }

    /** Publishes the output of one miss. It fails over an incomplete output, and over one
        that is a link to the entry to be replaced, which takes its source away. */
    method PublishTarget(key: Key) returns (ok: bool)
      modifies this`entries, this`workspaces
      ensures old(OutputAt(key)).None? ==> ok && entries == old(entries) && workspaces == old(workspaces)
      ensures old(OutputAt(key)).Some? && ok ==> Linked(key) && workspaces == old(workspaces)[key := Link(key)]
      ensures ok ==> entries.Keys >= old(entries).Keys
      ensures !ok ==> workspaces == old(workspaces) && old(OutputAt(key)).Some?
                      && (Has(required(key), old(OutputAt(key)).value) ==>
                            !old(EntryReady(key)) && old(workspaces)[key] == Link(key))
      ensures forall k | k != key ::
                (k in entries <==> k in old(entries)) && (k in entries ==> entries[k] == old(entries)[k])
      ensures old(EntryReady(key)) ==> key in entries && entries[key] == old(entries)[key]
    {
      var output := OutputAt(key);
      if output.None? { return true; }
      var valid := IsTargetOutputValid(key, output.value);
      if !valid { return false; }
      var ready := IsCacheReady(key);
      if !ready {
        if workspaces[key] == Link(key) {
          entries := entries - {key};
          return false;
        }
        var _ := PublishDirectory(key, output.value);
      }
      workspaces := workspaces[key := Link(key)];
      return true;
    }

    /** Publishes what was built for the misses, in the order given, up to the first failure.
        Every miss with an output so far ends linked to a ready entry, the others are
        skipped, and ready entries are not touched. */
    method PublishWorkspace(order: seq<Key>) returns (ok: bool, count: nat)
      requires forall i, j | 0 <= i < j < |order| :: order[i] != order[j]
      requires forall key | key in order :: key in misses
      modifies this`entries, this`workspaces
      ensures count <= |order| && (ok <==> count == |order|)
      ensures forall i | 0 <= i < count && old(OutputAt(order[i])).Some? :: Linked(order[i])
      ensures forall i | 0 <= i < count && !Linked(order[i]) ::
                order[i] in workspaces <==> order[i] in old(workspaces)
      ensures !ok ==> order[count] in old(workspaces) && order[count] in workspaces
                      && workspaces[order[count]] == old(workspaces)[order[count]]
      ensures !ok && workspaces[order[count]].Tree? ==> !Has(required(order[count]), workspaces[order[count]].files)
      ensures forall key | old(EntryReady(key)) :: key in entries && entries[key] == old(entries)[key]
    {
      count := 0;
      while count < |order|
        invariant count <= |order|
        invariant entries.Keys >= old(entries).Keys
        invariant forall i | 0 <= i < count && old(OutputAt(order[i])).Some? :: Linked(order[i])
        invariant forall i | 0 <= i < count && !Linked(order[i]) ::
                    order[i] in workspaces <==> order[i] in old(workspaces)
        invariant forall i | count <= i < |order| ::
                    (order[i] in workspaces <==> order[i] in old(workspaces))
                    && (order[i] in workspaces ==> workspaces[order[i]] == old(workspaces)[order[i]])
        invariant forall key | old(EntryReady(key)) :: key in entries && entries[key] == old(entries)[key]
      {
        var done := PublishTarget(order[count]);
        if !done { return false, count; }
        count := count + 1;
      }
      ok := true;
    }
  }
}
