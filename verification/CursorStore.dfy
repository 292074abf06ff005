/**
 The crash-safe cursor file (`cursor_store.py`): one JSON object of stream cursors, written to a
 temporary file and renamed over the old one. Any system call may fail, a write may be short, and
 the process may die between any two calls.
 */
module CursorStore {
  import opened Options

  type Cursors = map<string, string>

  // The serialisation, and what reading bytes back gives: None when they are not a JSON object.
  datatype Codec = Codec(dump: Cursors -> string, load: string -> Option<Cursors>)

  ghost predicate RoundTrips(c: Codec) {
    forall m: Cursors :: c.load(c.dump(m)) == Some(m)
  }

  // What a store that can read the file takes it to hold; a corrupt file counts as empty.
  function Held(c: Codec, file: Option<string>): Cursors {
    if file.Some? && c.load(file.value).Some? then c.load(file.value).value else map[]
  }

  // What a new store takes the file to hold: nothing when it could not be read.
  function Loaded(c: Codec, file: Option<string>, readable: bool): Cursors {
    if readable then Held(c, file) else map[]
  }

  // How a save ended.
  datatype Ending = Saved | Failed | Crashed

  class Directory {
    var file: Option<string>             // the cursor file
    var temp: Option<string>             // the temporary file beside it
    ghost var states: seq<Option<string>>   // every content the cursor file has had
    ghost var faults: nat                   // system calls that failed

    ghost predicate Valid()
      reads this
    {
      states != [] && states[|states| - 1] == file
    }

    // The only step that touches the cursor file.
    method Replace()
      requires Valid() && temp.Some?
      modifies this
      ensures Valid() && file == old(temp) && temp.None? && states == old(states) + [old(temp)] && faults == old(faults)
    {
      file, temp := temp, None;
      states := states + [file];
    }

    // `os.write` until all is out; each call may write less than asked, or fail.
    method WriteAll(payload: string) returns (ending: Ending)
      requires Valid() && temp == Some("")
      modifies this`temp, this`faults
      ensures ending.Saved? ==> temp == Some(payload)
      ensures temp.Some? && faults == old(faults) + if ending.Failed? then 1 else 0
    {
      var written := 0;
      while written < |payload|
        invariant written <= |payload| && temp == Some(payload[..written]) && faults == old(faults)
      {
        var n: nat, fails: bool, dies: bool := *, *, *;
        if dies { return Crashed; }
        if fails {
          faults := faults + 1;
          return Failed;
        }
        var chunk := if 0 < n <= |payload| - written then n else |payload| - written;
        assert payload[..written] + payload[written..written + chunk] == payload[..written + chunk];
        temp := Some(temp.value + payload[written..written + chunk]);
        written := written + chunk;
      }
      assert payload[..|payload|] == payload;
      ending := Saved;
    }

    /** `_write`: at every moment the file holds its old content or the whole new one. */
    method Write(payload: string) returns (ending: Ending)
      requires Valid()
      modifies this
      ensures Valid()
      ensures states == old(states) || states == old(states) + [Some(payload)]
      ensures ending.Saved? ==> file == Some(payload)
      ensures ending.Failed? ==> file == old(file) && states == old(states)
      ensures ending.Saved? ==> temp.None?
      ensures faults == old(faults) + if ending.Failed? then 1 else 0
    {
      var made: bool, synced: bool, renamed: bool := *, *, *;
      var dies: bool := *;
      if dies { return Crashed; }
      if !made {
        faults := faults + 1;
        return Failed;
      }
      temp := Some("");
      ending := WriteAll(payload);
      if ending.Saved? {
        dies := *;
        if dies { return Crashed; }
        if synced && renamed {
          Replace();
          dies := *;
          if dies { ending := Crashed; }
          return;
        }
        faults := faults + 1;
        ending := Failed;
      }
      if ending.Failed? {
        if * { temp := None; }       // the clean-up may fail too
      }
    }
  }

  class Store {
    const c: Codec
    const disk: Directory
    var cache: Cursors

    // The cache is what the file holds.
    ghost predicate InStep()
      reads this, disk
    {
      disk.Valid() && cache == Held(c, disk.file)
    }

    // A store that could not read its file starts empty all the same.
    constructor (c: Codec, disk: Directory, readable: bool)
      requires disk.Valid()
      ensures this.c == c && this.disk == disk
      ensures cache == Loaded(c, disk.file, readable)
    {
      this.c, this.disk := c, disk;
      cache := Loaded(c, disk.file, readable);
    }

    /** `save`. A failed save changes neither file nor cache; a crash leaves the old file or the new one. */
    method Save(name: string, cursor: string) returns (ending: Ending)
      requires disk.Valid() && RoundTrips(c)
      modifies this`cache, disk
      ensures disk.Valid()
      ensures old(InStep()) && !ending.Crashed? ==> InStep()
      ensures ending.Saved? ==> cache == old(cache)[name := cursor]
      ensures ending.Saved? ==> disk.file == if old(name in cache && cache[name] == cursor) then old(disk.file)
                                             else Some(c.dump(cache))
      ensures ending.Failed? ==> cache == old(cache) && disk.file == old(disk.file) && disk.faults > old(disk.faults)
      ensures disk.states == old(disk.states)
              || disk.states == old(disk.states) + [Some(c.dump(old(cache)[name := cursor]))]
    {
      if name in cache && cache[name] == cursor {
        assert cache[name := cursor] == cache;
        return Saved;
      }
      var candidate := cache[name := cursor];
      ending := disk.Write(c.dump(candidate));
      if ending.Saved? { cache := candidate; }
    }
  }

  /** The first save of a new store, when it succeeds, keeps the other streams' cursors exactly if the file could be
      read, or held no others. */
  method FirstSave(c: Codec, disk: Directory, readable: bool, name: string, cursor: string) returns (ending: Ending)
    requires disk.Valid() && RoundTrips(c)
    modifies disk
    ensures disk.Valid()
    ensures ending.Saved? ==>
              (Held(c, disk.file) - {name} == old(Held(c, disk.file)) - {name} <==>
                  KeepsOthers(c, old(disk.file), readable, name))
    ensures ending.Failed? ==> disk.file == old(disk.file)
  {
    var store := new Store(c, disk, readable);
    ending := store.Save(name, cursor);
    if ending.Saved? { FirstSaveKeepsOthersExactly(c, old(disk.file), readable, name, cursor); }
  }

  // What can be said before the save: the file was read, or there is nothing in it to lose.
  predicate KeepsOthers(c: Codec, file: Option<string>, readable: bool, name: string) {
    readable || Held(c, file) - {name} == map[]
  }

  lemma FirstSaveKeepsOthersExactly(c: Codec, file: Option<string>, readable: bool, name: string, cursor: string)
    requires RoundTrips(c)
    ensures Held(c, Some(c.dump(Loaded(c, file, readable)[name := cursor]))) - {name} == Held(c, file) - {name}
            <==> KeepsOthers(c, file, readable, name)
  {
    var loaded := Loaded(c, file, readable);
    assert loaded[name := cursor] - {name} == loaded - {name};
    assert !readable ==> loaded - {name} == map[];
  }

  /** At an unreadable file of two streams: saving one loses the other. */
  lemma AnUnreadableFileLosesAStream(c: Codec, file: string)
    requires RoundTrips(c) && c.load(file) == Some(map["task-events" := "7", "note-events" := "3"])
    ensures Held(c, Some(c.dump(Loaded(c, Some(file), false)["task-events" := "8"]))) == map["task-events" := "8"]
    ensures !KeepsOthers(c, Some(file), false, "task-events")
  {
    assert "task-events"[0] != "note-events"[0];
    assert "note-events" in Held(c, Some(file)) - {"task-events"};
    var saved: Cursors := map[];
    assert saved["task-events" := "8"] == map["task-events" := "8"];
  }

  /** Over any run of saves from a readable file, whatever fails, every content the file ever had reads back as a
      complete set of cursors. */
  method SaveAll(store: Store, saves: seq<(string, string)>) returns (crashed: bool)
    requires store.InStep() && RoundTrips(store.c)
    requires forall i :: 0 <= i < |store.disk.states| ==> Complete(store.c, store.disk.states[i])
    modifies store`cache, store.disk
    ensures store.disk.Valid() && (!crashed ==> store.InStep())
    ensures forall i :: 0 <= i < |store.disk.states| ==> Complete(store.c, store.disk.states[i])
  {
    for i := 0 to |saves|
      invariant store.InStep()
      invariant forall k :: 0 <= k < |store.disk.states| ==> Complete(store.c, store.disk.states[k])
    {
      var ending := store.Save(saves[i].0, saves[i].1);
      if ending.Crashed? { return true; }
    }
    crashed := false;
  }

  // Absent, or a whole object.
  predicate Complete(c: Codec, file: Option<string>) { file.Some? ==> c.load(file.value).Some? }
}
