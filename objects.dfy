/**
 * The in-game objects the container and door commands work on, with the
 * attributes those commands read and write, and the `Door` exit
 * (typeclasses/exits.py): a door and its return exit share their open/closed
 * state, their locks and their description.
 */
module Objects {
  import opened Opt

  /** Which typeclass an object inherits from, as `inherits_from` answers it. */
  datatype Kind = ContainerKind | DoorKind | OtherKind

  /** The access type the doors lock. */
  const Traverse := "traverse"

  /** An object: its identity, where it is, and the `db` attributes the commands use. */
  class Obj {
    const kind: Kind
    var key: string
    var location: Obj?
    /** `db.container == True`. */
    var isContainer: bool
    /** `db.open == True`. */
    var open: bool
    /** `db.closed == True`. */
    var closed: bool
    /** `db.equipped == True`. */
    var equipped: bool
    /** `db.get_err_msg`; empty when unset. */
    var getErrMsg: string
    /** `db.return_exit`: the exit leading back through a door. */
    var returnExit: Obj?
    /** The lock string for each access type. */
    var locks: map<string, string>
    var desc: string
    var aliases: set<string>

    /** An object as the world holds it before any of these attributes is set. */
    constructor (kind: Kind, key: string, location: Obj?)
      ensures this.kind == kind && this.key == key && this.location == location
      ensures !isContainer && !open && !closed && !equipped && getErrMsg == []
      ensures returnExit == null && locks == map[] && desc == [] && aliases == {}
    {
      this.kind := kind;
      this.key := key;
      this.location := location;
      isContainer := false;
      open := false;
      closed := false;
      equipped := false;
      getErrMsg := [];
      returnExit := null;
      locks := map[];
      desc := [];
      aliases := {};
    }

    /** `Door.at_object_creation`: a door starts open, not yet paired, and answers to its own name. */
    constructor Door(key: string, location: Obj?)
      ensures kind == DoorKind && this.key == key && this.location == location
      ensures returnExit == null && !closed && open && aliases == {key}
      ensures !isContainer && !equipped && getErrMsg == [] && locks == map[] && desc == []
    {
      kind := DoorKind;
      this.key := key;
      this.location := location;
      isContainer := false;
      open := true;
      closed := false;
      equipped := false;
      getErrMsg := [];
      returnExit := null;
      locks := map[];
      desc := [];
      aliases := {key};
    }

    /**
     * `Door.get_display_name`: "closed <name>" while closed, which wins over the
     * open flag; otherwise "open <name>" while open; otherwise nothing.
     */
    function DisplayName(): (name: Option<string>)
      reads this
      ensures closed ==> name == Some("closed " + key)
      ensures !closed && open ==> name == Some("open " + key)
      ensures !closed && !open ==> name.None?
      ensures name.Some? ==> |name.value| > |key| && name.value[|name.value| - |key|..] == key
    {
      if closed then
        var n := "closed " + key;
        assert n[|n| - |key|..] == key;
        Some(n)
      else if open then
        var n := "open " + key;
        assert n[|n| - |key|..] == key;
        Some(n)
      else None
    }

    /** `Door.at_failed_traverse`: what the traveller is told. */
    function FailedTraverseMessage(): (m: string)
      reads this
      ensures |m| == |key| + 17 && m[6..6 + |key|] == key
      ensures m[..6] == "|yThe " && m[6 + |key|..] == " is closed!"
    {
      var m := "|yThe " + key + " is closed!";
      assert m[6..6 + |key|] == key;
      m
    }

    /**
     * `Door.setlock`: the lock goes on the door and then on its return exit; with
     * no return exit the second step raises (`raised`), after the first took effect.
     */
    method SetLock(access: string, lock: string) returns (raised: bool)
      modifies this`locks, (if returnExit == null then {} else {returnExit})`locks
      ensures locks == old(locks)[access := lock]
      ensures raised <==> returnExit == null
      ensures returnExit != null ==> returnExit.locks == old(returnExit.locks)[access := lock]
      ensures !raised ==> locks[access] == returnExit.locks[access] == lock
    {
      locks := locks[access := lock];
      if returnExit == null {
        return true;
      }
      returnExit.locks := returnExit.locks[access := lock];
      return false;
    }

    /**
     * `Door.setdesc`: the door and then its return exit get the description; with
     * no return exit the second step raises, after the first took effect.
     */
    method SetDesc(description: string) returns (raised: bool)
      modifies this`desc, (if returnExit == null then {} else {returnExit})`desc
      ensures desc == description
      ensures raised <==> returnExit == null
      ensures !raised ==> returnExit.desc == desc
    {
      desc := description;
      if returnExit == null {
        return true;
      }
      returnExit.desc := description;
      return false;
    }
  }
}
