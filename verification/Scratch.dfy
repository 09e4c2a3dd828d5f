/** The startup sweep of one process that nobody disturbs: a loop over the entries
    of the temporary directory. Concurrent sweeps, owners and crashes are the
    subject of `ScratchProtocol`. */
module Scratch {

  /** What is found at the marker's path inside an entry. */
  datatype Marker = Missing | Regular | Special

  datatype Entry = Entry(
    prefixed: bool,      // the name starts with the scratch prefix
    isDir: bool,         // a real directory, not a link to one
    mine: bool,          // belongs to this user
    marker: Marker,
    held: bool,          // somebody holds the lock on the marker
    removable: bool)     // deleting it will succeed

  /** Only marked, unlocked directories of this user are up for removal. */
  predicate Eligible(e: Entry) {
    e.prefixed && e.isDir && e.mine && e.marker.Regular? && !e.held
  }

  predicate Doomed(e: Entry) {
    Eligible(e) && e.removable
  }

  class TempSpace {
    var entries: map<nat, Entry>

    constructor (entries: map<nat, Entry>)
      ensures this.entries == entries
    {
      this.entries := entries;
    }

    /** Remove abandoned scratch. `listing` is the order in which the directory
        happens to be read. Exactly the eligible entries that can be removed are
        gone afterwards, all others are as before, and the count says how many. */
    method CleanupStale(listing: seq<nat>) returns (removed: nat)
      requires forall i, j :: 0 <= i < j < |listing| ==> listing[i] != listing[j]
      requires forall n :: n in listing <==> n in entries
      modifies this
      ensures entries == map n | n in old(entries) && !Doomed(old(entries)[n]) :: old(entries)[n]
      ensures forall n :: n in old(entries) ==>
        var e := old(entries)[n];
        if e.prefixed && e.isDir && e.mine && e.marker == Regular && !e.held && e.removable
        then n !in entries
        else n in entries && entries[n] == e
      ensures removed + |entries| == |old(entries)|
    {
      removed := 0;
      for i := 0 to |listing|
        invariant forall n :: n in entries ==> n in old(entries) && entries[n] == old(entries)[n]
        invariant forall k :: i <= k < |listing| ==> listing[k] in entries
        invariant forall k :: 0 <= k < i ==> (listing[k] in entries <==> !Doomed(old(entries)[listing[k]]))
        invariant removed + |entries| == |old(entries)|
      {
        var name := listing[i];
        var entry := entries[name];
        if !entry.prefixed || !entry.isDir {
          continue;
        }
        if !entry.mine {
          continue;
        }
        if !entry.marker.Regular? {
          continue;
        }
        if entry.held {
          continue;
        }
        if entry.removable {
          entries := entries - {name};
          removed := removed + 1;
        }
      }
    }
  }
}
