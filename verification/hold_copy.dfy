/** A hold's copy of the live state: written once, settled with the state on
    release, and never changed or removed by a command. */
module HoldCopy {
  type Bytes = seq<bv8>

  /** What is at a path. `Odd` is anything that is not a regular file. `guarded`
      is mode 0600 with one link. */
  datatype Node = Absent | File(data: Bytes, guarded: bool) | Odd

  datatype Dir = Missing | Directory(private: bool) | NotDirectory

  /** How a file operation ends: done, failed with nothing changed, or the
      process is killed there. */
  datatype Outcome = Fine | Fault | Killed

  datatype Refusal = DirsRefused | CopyRefused | AlreadyThere | StateUnreadable | Differs | FileFault

  datatype How = Written | Kept | Restored

  datatype Settled = Done(how: How) | Refused(why: Refusal) | Cut

  predicate Private(dirs: seq<Dir>) {
    forall i :: 0 <= i < |dirs| ==> dirs[i].Directory? && (i > 0 ==> dirs[i].private)
  }

  /** A dir that is there is not as it must be. The first, .infrafactory, may be open. */
  predicate Refusable(dirs: seq<Dir>) {
    exists i :: 0 <= i < |dirs| && (dirs[i].NotDirectory? || (i > 0 && dirs[i] == Directory(false)))
  }

  predicate Guarded(copy: Node) {
    copy.File? && copy.guarded
  }

  /** When a release goes through: the dirs are private or missing, and the copy
      and the state agree, or one of them is there to make the other from. */
  predicate Settleable(dirs: seq<Dir>, copy: Node, state: Node) {
    && !Refusable(dirs)
    && match copy
       case Absent => state.File?
       case File(held, guarded) => guarded && (state.Absent? || (state.File? && state.data == held))
       case Odd => false
  }

  /** The copy is what it was before the commands, or, where there was none, a
      whole state that was read from the state path. */
  predicate Whole(first: Node, copy: Node, taken: set<Bytes>) {
    copy == first || (first.Absent? && Guarded(copy) && copy.data in taken)
  }

  /** Which file operation of a call is the first not to end well, counted from
      0, and how: it fails, or the process is killed there. A kill at a rename
      may fall on either side of it, and one at a write leaves any half of a file. */
  datatype Fate = Fate(at: nat, kills: bool, renamed: bool, half: Bytes)

  function Later(f: Fate, n: nat): Fate
    requires n <= f.at
  {
    f.(at := f.at - n)
  }

  function Hit(f: Fate): Outcome {
    if f.kills then Killed else Fault
  }

  function Ends(o: Outcome, why: Refusal): Settled
    requires !o.Fine?
  {
    if o.Killed? then Cut else Refused(why)
  }

  /** The operation of a settle that renames the missing file into place. */
  function RenameAt(dirs: seq<Dir>, copy: Node): nat {
    |dirs| + if copy.Absent? then 4 else 6
  }

  /** The missing one of the two is in its place: the fate falls after the rename,
      or a kill falls on it from behind. */
  predicate Renamed(f: Fate, rename: nat) {
    f.at > rename || (f.at == rename && f.kills && f.renamed)
  }

  class Files {
    var dirs: seq<Dir>    // .infrafactory, the holds dir, the scenario's
    var copy: Node
    var state: Node
    var temp: seq<Bytes>  // temp files neither renamed nor removed

    /** The states read whole from the state path for a copy. */
    ghost var taken: set<Bytes>

    constructor (dirs: seq<Dir>, copy: Node, state: Node)
      ensures this.dirs == dirs && this.copy == copy && this.state == state && temp == [] && taken == {}
    {
      this.dirs, this.copy, this.state, temp, taken := dirs, copy, state, [], {};
    }

    /** privateDirs: makes what is missing, one level at a time, and refuses a
        symlink, a file, or any dir below the first that others may enter. What
        it finds it never changes. One operation a dir. */
    method PrivateDirs(f: Fate) returns (o: Outcome)
      modifies this`dirs
      ensures |dirs| == |old(dirs)|
      ensures forall i :: 0 <= i < |dirs| ==> dirs[i] == old(dirs)[i] || (old(dirs)[i].Missing? && dirs[i] == Directory(true))
      ensures o.Fine? <==> !Refusable(old(dirs)) && f.at >= |dirs|
      ensures o.Fine? ==> Private(dirs)
      ensures o.Killed? ==> f.kills
    {
      var i := 0;
      while i < |dirs|
        invariant 0 <= i <= |dirs| == |old(dirs)| && i <= f.at
        invariant forall k :: 0 <= k < i ==> dirs[k] == if old(dirs)[k].Missing? then Directory(true) else old(dirs)[k]
        invariant forall k :: i <= k < |dirs| ==> dirs[k] == old(dirs)[k]
        invariant forall k :: 0 <= k < i ==> dirs[k].Directory? && (k > 0 ==> dirs[k].private)
      {
        if f.at == i {
          return Hit(f);
        }
        if dirs[i].Missing? {
          dirs := dirs[i := Directory(true)];
        }
        if !dirs[i].Directory? || (i > 0 && !dirs[i].private) {
          assert old(dirs)[i] == dirs[i];
          return Fault;
        }
        i := i + 1;
      }
      o := Fine;
    }

    /** writeSynced at one of the two paths, in three operations: until the rename
        the path is as it was, and after it holds all the data. A temp file
        outlives only a kill. */
    method WriteSynced(f: Fate, atCopy: bool, data: Bytes) returns (o: Outcome)
      modifies this`copy, this`state, this`temp
      ensures o == if f.at >= 3 then Fine else Hit(f)
      ensures copy == if atCopy && Renamed(f, 2) then File(data, true) else old(copy)
      ensures state == if !atCopy && Renamed(f, 2) then File(data, true) else old(state)
      ensures !o.Killed? ==> temp == old(temp)
    {
      if f.at == 0 { // create the temp file
        return Hit(f);
      }
      temp := temp + [[]];
      if f.at == 1 { // write, sync and close it
        temp := temp[..|temp| - 1] + [f.half];
        o := Hit(f);
      } else {
        temp := temp[..|temp| - 1] + [data];
        o := if f.at == 2 then Hit(f) else Fine; // rename it
        if Renamed(f, 2) {
          if atCopy {
            copy := File(data, true);
          } else {
            state := File(data, true);
          }
        }
      }
      if !o.Killed? {
        temp := temp[..|temp| - 1];
        assert temp == old(temp);
      }
    }

    /** writeHoldCopy, in five operations: the state, read whole, becomes the copy
        and is read back. A read back that fails or differs leaves the copy it
        wrote. */
    method WriteHoldCopy(f: Fate) returns (r: Settled)
      requires copy.Absent?
      modifies this`copy, this`state, this`temp, this`taken
      ensures state == old(state) && old(taken) <= taken && Whole(Absent, copy, taken)
      ensures copy == if state.File? && Renamed(f, 3) then File(state.data, true) else Absent
      ensures r == if f.at == 0 then Ends(Hit(f), StateUnreadable)
                   else if !state.File? then Refused(StateUnreadable)
                   else if f.at >= 5 then Done(Written) else Ends(Hit(f), FileFault)
    {
      if f.at == 0 && f.kills {
        return Cut;
      }
      if f.at == 0 || !state.File? {
        return Refused(StateUnreadable);
      }
      var data := state.data;
      taken := taken + {data};
      var o := WriteSynced(Later(f, 1), true, data);
      if o.Fine? && f.at == 4 { // read it back
        o := Hit(f);
      }
      r := if o.Fine? then Done(Written) else Ends(o, FileFault);
    }

    /** writeNewHoldCopy: what is already at the path refuses, and is left. */
    method WriteNewHoldCopy(f: Fate) returns (r: Settled)
      modifies this
      ensures state == old(state) && old(taken) <= taken && Whole(old(copy), copy, taken)
      ensures copy != old(copy) <==>
                !Refusable(old(dirs)) && old(copy).Absent? && state.File? && Renamed(f, |old(dirs)| + 4)
      ensures copy != old(copy) ==> state.File? && copy == File(state.data, true)
      ensures r.Done? <==> !Refusable(old(dirs)) && old(copy).Absent? && state.File? && f.at >= |old(dirs)| + 6
    {
      var o := PrivateDirs(f);
      if !o.Fine? {
        return Ends(o, DirsRefused);
      }
      var g := Later(f, |dirs|);
      if g.at == 0 {
        return Ends(Hit(g), FileFault);
      }
      if !copy.Absent? {
        return Refused(AlreadyThere);
      }
      r := WriteHoldCopy(Later(g, 1));
    }

    /** restoreHeldState, in five operations. */
    method RestoreHeldState(f: Fate, held: Bytes) returns (r: Settled)
      modifies this`copy, this`state, this`temp
      ensures copy == old(copy) && state == if Renamed(f, 3) then File(held, true) else old(state)
      ensures r == if f.at >= 5 then Done(Restored) else Ends(Hit(f), FileFault)
    {
      var o := Hit(f);
      if f.at >= 1 { // the dir is made
        o := WriteSynced(Later(f, 1), false, held);
        if o.Fine? && f.at == 4 { // read it back
          o := Hit(f);
        }
      }
      r := if o.Fine? then Done(Restored) else Ends(o, FileFault);
    }

    /** settleHoldCopy. Once settled, copy and state are equal byte for byte, and
        neither file that was there was touched. It settles exactly when it may
        and no operation fails, and it changes a file exactly when it may, one of
        the two is missing, and what goes wrong, if anything, does so after the
        rename. So a refusal changes a file exactly when its read back fails. */
    method Settle(f: Fate) returns (r: Settled)
      modifies this
      ensures old(taken) <= taken && Whole(old(copy), copy, taken)
      ensures r.Done? <==>
                && Settleable(old(dirs), old(copy), old(state))
                && f.at >= if OneMissing(old(copy), old(state)) then RenameAt(old(dirs), old(copy)) + 2 else |old(dirs)| + 3
      ensures r.Done? ==> r.how == if old(copy).Absent? then Written else if old(state).Absent? then Restored else Kept
      ensures r.Done? ==> Private(dirs) && Guarded(copy) && state.File? && state.data == copy.data
      ensures copy != old(copy) || state != old(state) <==>
                && Settleable(old(dirs), old(copy), old(state)) && OneMissing(old(copy), old(state))
                && Renamed(f, RenameAt(old(dirs), old(copy)))
      ensures copy != old(copy) ==> old(copy).Absent? && state == old(state) && state.File? && copy == File(state.data, true)
      ensures state != old(state) ==> old(state).Absent? && copy == old(copy) && Guarded(copy) && state == File(copy.data, true)
      ensures r.Refused? && (copy != old(copy) || state != old(state)) <==>
                && Settleable(old(dirs), old(copy), old(state)) && OneMissing(old(copy), old(state))
                && f.at == RenameAt(old(dirs), old(copy)) + 1 && !f.kills
      ensures r.Cut? ==> f.kills
      ensures r.Refused? && !r.why.FileFault? ==> copy == old(copy) && state == old(state)
    {
      var o := PrivateDirs(f);
      if !o.Fine? {
        return Ends(o, DirsRefused);
      }
      var g := Later(f, |dirs|);
      if g.at == 0 {
        return Ends(Hit(g), FileFault);
      }
      if copy.Absent? {
        r := WriteHoldCopy(Later(g, 1));
        return;
      }
      if !Guarded(copy) {
        return Refused(CopyRefused);
      }
      if g.at == 1 { // read the copy
        return Ends(Hit(g), CopyRefused);
      }
      var held := copy.data;
      if g.at == 2 { // read the state
        return Ends(Hit(g), StateUnreadable);
      }
      if state.Absent? {
        r := RestoreHeldState(Later(g, 3), held);
      } else if !state.File? {
        r := Refused(StateUnreadable);
      } else if state.data != held {
        r := Refused(Differs);
      } else {
        r := Done(Kept);
      }
    }

    /** refuseWhileHeld: only an absent copy passes; a path that cannot be read does not. */
    method RefuseWhileHeld(readable: bool) returns (passes: bool)
      ensures passes <==> readable && copy.Absent?
    {
      passes := readable && copy.Absent?;
    }

    // ----- The commands -----

    /** One command, cut off anywhere. What tofu leaves of the state is up to the
        command's `after`. */
    method Perform(c: Command) returns (went: bool)
      modifies this
      ensures old(taken) <= taken && Whole(old(copy), copy, taken)
      ensures !c.Reap? ==> (went <==> c.readable && old(copy).Absent?)
      ensures !c.Reap? && !went ==> copy == old(copy) && state == old(state)
      ensures c.Reap? && !c.release ==> went && copy == old(copy)
      ensures c.Reap? && c.release && went ==>
                Guarded(copy) && if old(state).File? then copy.data == old(state).data else copy == old(copy)
      ensures c.Reap? && c.release && !went ==> old(state).Absent? || state == old(state)
      ensures went ==> state == if c.Generate? then Absent
                                else if c.Test? && c.hold && c.keeps && WroteCopy(old(dirs), c) then c.applied
                                else c.after
      // A test that wants to hold copies what it applied, from the rename on.
      ensures c.Test? && went ==>
                copy == if c.hold && !Refusable(old(dirs)) && c.applied.File? && Renamed(c.fate, |old(dirs)| + 4)
                        then File(c.applied.data, true) else Absent
      ensures c.Test? && went && c.hold && WroteCopy(old(dirs), c) ==> copy == File(c.applied.data, true)
      ensures c.Generate? || c.Run? ==> copy == old(copy)
    {
      match c
      case Generate(readable) =>
        went := RefuseWhileHeld(readable);
        if went {
          state := Absent;
        }
      case Run(readable, after) =>
        went := RefuseWhileHeld(readable);
        if went {
          state := after;
        }
      case Test(readable, applied, hold, fate, keeps, after) =>
        went := RefuseWhileHeld(readable);
        if went {
          state := applied;
          var r := Cut;
          if hold {
            r := WriteNewHoldCopy(fate);
          }
          if !r.Done? || !keeps {
            state := after;
          }
        }
      case Reap(release, fate, after) =>
        went := true;
        if release {
          var r := Settle(fate);
          went := r.Done?;
        }
        if went {
          state := after;
        }
    }
  }

  /** One of the two files is not there. */
  predicate OneMissing(copy: Node, state: Node) {
    copy.Absent? || state.Absent?
  }

  /** A held test's copy goes through. */
  predicate WroteCopy(dirs: seq<Dir>, c: Command)
    requires c.Test?
  {
    !Refusable(dirs) && c.applied.File? && c.fate.at >= |dirs| + 6
  }

  /** `readable` says the copy path can be looked at, `keeps` that no interrupt
      follows the copy. */
  datatype Command =
    | Generate(readable: bool)
    | Run(readable: bool, after: Node)
    | Test(readable: bool, applied: Node, hold: bool, fate: Fate, keeps: bool, after: Node)
    | Reap(release: bool, fate: Fate, after: Node)

  /** Over any commands, cut off anywhere, a copy is never changed or removed,
      and one that appears is a whole state; while it is there, only a reap
      touches the state. */
  method PerformAll(files: Files, commands: seq<Command>)
    modifies files
    ensures Whole(old(files.copy), files.copy, files.taken)
    ensures !old(files.copy).Absent? ==> files.copy == old(files.copy)
    ensures !old(files.copy).Absent? && (forall c :: c in commands ==> !c.Reap?) ==> files.state == old(files.state)
  {
    for i := 0 to |commands|
      invariant Whole(old(files.copy), files.copy, files.taken)
      invariant !old(files.copy).Absent? && (forall c :: c in commands ==> !c.Reap?) ==> files.state == old(files.state)
    {
      assert commands[i] in commands;
      var went := files.Perform(commands[i]);
    }
  }

  /** A release whose read back of the new copy fails refuses, and leaves the copy. */
  method ReadBackFails() returns (files: Files, r: Settled)
    ensures r == Refused(FileFault) && files.copy == File([1], true) && files.state == File([1], true)
  {
    var private := [Directory(false), Directory(true), Directory(true)];
    files := new Files(private, Absent, File([1], true));
    assert !Refusable(private);
    r := files.Settle(Fate(8, false, false, []));
  }
}
