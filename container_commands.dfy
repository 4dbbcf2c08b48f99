/**
 * The `put`, `get`, `open` and `close` commands (commands/containercommands.py):
 * ordered guard checks, each reporting the first one that fails, before an object
 * moves or a container's or door's open/closed flags change. Object lookup, the
 * `get` access lock and the `at_before_get` hook are parameters.
 */
module ContainerCommands {
  import opened Opt
  import opened Text
  import opened Objects

  /** `searcher.search(name, quiet=True)[0]`: the first match, or none where indexing raises. */
  type Search = (Obj, string) -> Option<Obj>

  /** Every object a lookup from inside `world` can return belongs to `world` as well. */
  ghost predicate Within(world: set<Obj>, search: Search) {
    forall o, n :: o in world && search(o, n).Some? ==> search(o, n).value in world
  }

  const In := " in "
  const From := " from "
  const CantPickUp := "|yYou can't pick that up."

  /** How a `put` or `get` ends: the first failing check, or the move that was made. */
  datatype Outcome =
    | NoArgs            // nothing after the command name
    | Usage             // `put` without " in "
    | NoContainer       // the container name matches nothing
    | NoItem            // the object name matches nothing
    | NotAContainer     // `put` into something that is not a container
    | ContainerClosed   // the container is not open
    | NotHeld           // `put` of something the caller does not carry
    | Equipped          // `put` of something the caller wears
    | GetSelf           // `get` of the caller itself
    | Refused(message: string)  // the `get` lock fails
    | Vetoed            // `at_before_get` says no
    | AlreadyHeld       // `get` of something the caller already carries
    | NotInContainer    // `get ... from` of something not in that container
    | Moved(obj: Obj, dest: Obj)

  // ---------------------------------------------------------------------------
  // put

  /** The checks an object must pass before `put` moves it into a container. */
  predicate CanPutInto(caller: Obj, obj: Obj, cont: Obj)
    reads obj, cont
  {
    cont.isContainer && cont.open && obj.location == caller && !obj.equipped
  }

  /**
   * `CmdPutObject.func` as a verdict: `<object> in <container>` is cut at the first
   * " in "; the container is looked up before the object, then the checks run in
   * order and the first that fails is the answer.
   */
  function PutVerdict(caller: Obj, args: string, search: Search, world: set<Obj>): (r: Outcome)
    requires caller in world && Within(world, search)
    reads world
    ensures r == NoArgs <==> args == []
    ensures r == Usage <==> args != [] && !Contains(LStrip(args), In)
    ensures r.Moved? ==> args != [] && SplitOnce(LStrip(args), In).Some?
    ensures r.Moved? ==> var p := SplitOnce(LStrip(args), In).value;
              search(caller, p.1) == Some(r.dest) && search(caller, p.0) == Some(r.obj)
              && CanPutInto(caller, r.obj, r.dest)
    ensures args != [] && Contains(LStrip(args), In) ==> var p := SplitOnce(LStrip(args), In).value;
              (r == NoContainer <==> search(caller, p.1).None?)
              && (search(caller, p.1).Some? ==> (r == NoItem <==> search(caller, p.0).None?))
    ensures args != [] && Contains(LStrip(args), In) ==> var p := SplitOnce(LStrip(args), In).value;
              search(caller, p.1).Some? && search(caller, p.0).Some? ==>
              var cont, obj := search(caller, p.1).value, search(caller, p.0).value;
              && (r == NotAContainer <==> !cont.isContainer)
              && (r == ContainerClosed <==> cont.isContainer && !cont.open)
              && (r == NotHeld <==> cont.isContainer && cont.open && obj.location != caller)
              && (r == Equipped <==> cont.isContainer && cont.open && obj.location == caller && obj.equipped)
              && (r == Moved(obj, cont) <==> CanPutInto(caller, obj, cont))
  {
    if args == [] then NoArgs
    else match SplitOnce(LStrip(args), In)
      case None => Usage
      case Some((objName, contName)) =>
        match search(caller, contName)
        case None => NoContainer
        case Some(cont) =>
          match search(caller, objName)
          case None => NoItem
          case Some(obj) =>
            if !cont.isContainer then NotAContainer
            else if !cont.open then ContainerClosed
            else if obj.location != caller then NotHeld
            else if obj.equipped then Equipped
            else Moved(obj, cont)
  }

  /** `CmdPutObject.func`: the verdict, and on success the object now lies in the container; nothing else moves. */
  method Put(caller: Obj, args: string, search: Search, world: set<Obj>) returns (r: Outcome)
    requires caller in world && Within(world, search)
    modifies world`location
    ensures r == old(PutVerdict(caller, args, search, world))
    ensures r.Moved? ==> r.obj.location == r.dest
    ensures forall o :: o in world && !(r.Moved? && o == r.obj) ==> o.location == old(o.location)
  {
    if args == [] {
      return NoArgs;
    }
    var parts := SplitOnce(LStrip(args), In);
    if parts.None? {
      return Usage;
    }
    var objName, contName := parts.value.0, parts.value.1;
    var conts := search(caller, contName);
    if conts.None? {
      return NoContainer;
    }
    var cont := conts.value;
    var objs := search(caller, objName);
    if objs.None? {
      return NoItem;
    }
    var obj := objs.value;
    if !cont.isContainer {
      return NotAContainer;
    }
    if !cont.open {
      return ContainerClosed;
    }
    if obj.location != caller {
      return NotHeld;
    }
    if obj.equipped {
      return Equipped;
    }
    obj.location := cont;
    return Moved(obj, cont);
  }

  // ---------------------------------------------------------------------------
  // get

  /** `obj.access(caller, "get")`. */
  type Access = (Obj, Obj, string) -> bool

  /** `obj.at_before_get(caller)`. */
  type BeforeGet = (Obj, Obj) -> bool

  /** The object `get <name> from <container>` takes: looked up in the container first, then around the caller. */
  function FindItem(caller: Obj, cont: Obj, objName: string, search: Search): Option<Obj> {
    if search(cont, objName).Some? then search(cont, objName) else search(caller, objName)
  }

  /**
   * `CmdGetObject.func` as a verdict. Without " from ", the object must be found,
   * not be the caller, pass the `get` lock (else its own error message, if set,
   * is shown) and `at_before_get`, and not be carried already. With " from ", the
   * container must be found, the object found in it or around the caller, the
   * container open and the object inside it. Either way it then moves to the caller.
   */
  function GetVerdict(caller: Obj, args: string, search: Search, access: Access, beforeGet: BeforeGet,
                      world: set<Obj>): (r: Outcome)
    requires caller in world && Within(world, search)
    reads world
    ensures r.Moved? ==> r.dest == caller && args != []
    ensures r.Moved? && !Contains(LStrip(args), From) ==>
              search(caller, LStrip(args)) == Some(r.obj) && r.obj != caller
              && access(r.obj, caller, "get") && beforeGet(r.obj, caller) && r.obj.location != caller
    ensures r.Moved? && Contains(LStrip(args), From) ==> var p := SplitOnce(LStrip(args), From).value;
              search(caller, p.1).Some? && search(caller, p.1).value.open
              && FindItem(caller, search(caller, p.1).value, p.0, search) == Some(r.obj)
              && r.obj.location == search(caller, p.1).value
    ensures r.Refused? ==> r.message != []
    ensures r == NoArgs <==> args == []
    ensures args != [] && !Contains(LStrip(args), From) ==>
              r == GetPlainVerdict(caller, LStrip(args), search, access, beforeGet, world)
    ensures args != [] && Contains(LStrip(args), From) ==> var p := SplitOnce(LStrip(args), From).value;
              r == GetFromVerdict(caller, p.0, p.1, search, world)
  {
    if args == [] then NoArgs
    else
      var rest := LStrip(args);
      match SplitOnce(rest, From)
      case None => GetPlainVerdict(caller, rest, search, access, beforeGet, world)
      case Some((objName, contName)) => GetFromVerdict(caller, objName, contName, search, world)
  }

  /** `get <name>`: the checks of `CmdGetObject.func` when no container is named. */
  function GetPlainVerdict(caller: Obj, name: string, search: Search, access: Access, beforeGet: BeforeGet,
                           world: set<Obj>): (r: Outcome)
    requires caller in world && Within(world, search)
    reads world
    ensures r.Moved? ==>
              r.dest == caller && search(caller, name) == Some(r.obj) && r.obj != caller
              && access(r.obj, caller, "get") && beforeGet(r.obj, caller) && r.obj.location != caller
    ensures r.Refused? ==> r.message != []
    ensures r == NoItem <==> search(caller, name).None?
    ensures search(caller, name).Some? ==> var obj := search(caller, name).value;
              && (r == GetSelf <==> obj == caller)
              && (r.Refused? <==> obj != caller && !access(obj, caller, "get"))
              && (r.Refused? ==> r.message == if obj.getErrMsg != [] then obj.getErrMsg else CantPickUp)
              && (r == Vetoed <==> obj != caller && access(obj, caller, "get") && !beforeGet(obj, caller))
              && (r == AlreadyHeld <==>
                    obj != caller && access(obj, caller, "get") && beforeGet(obj, caller) && obj.location == caller)
              && (r == Moved(obj, caller) <==>
                    obj != caller && access(obj, caller, "get") && beforeGet(obj, caller) && obj.location != caller)
  {
    match search(caller, name)
    case None => NoItem
    case Some(obj) =>
      if obj == caller then GetSelf
      else if !access(obj, caller, "get") then Refused(if obj.getErrMsg != [] then obj.getErrMsg else CantPickUp)
      else if !beforeGet(obj, caller) then Vetoed
      else if obj.location == caller then AlreadyHeld
      else Moved(obj, caller)
  }

  /** `get <name> from <container>`: the checks of `CmdGetObject.func` when a container is named. */
  function GetFromVerdict(caller: Obj, objName: string, contName: string, search: Search, world: set<Obj>): (r: Outcome)
    requires caller in world && Within(world, search)
    reads world
    ensures r.Moved? ==>
              r.dest == caller && search(caller, contName).Some? && search(caller, contName).value.open
              && FindItem(caller, search(caller, contName).value, objName, search) == Some(r.obj)
              && r.obj.location == search(caller, contName).value
    ensures !r.Refused?
    ensures r == NoContainer <==> search(caller, contName).None?
    ensures search(caller, contName).Some? ==> var cont := search(caller, contName).value;
              r == NoItem <==> FindItem(caller, cont, objName, search).None?
    ensures search(caller, contName).Some? && FindItem(caller, search(caller, contName).value, objName, search).Some? ==>
              var cont, obj := search(caller, contName).value, FindItem(caller, search(caller, contName).value, objName, search).value;
              && (r == ContainerClosed <==> !cont.open)
              && (r == NotInContainer <==> cont.open && obj.location != cont)
              && (r == Moved(obj, caller) <==> cont.open && obj.location == cont)
  {
    match search(caller, contName)
    case None => NoContainer
    case Some(cont) =>
      match FindItem(caller, cont, objName, search)
      case None => NoItem
      case Some(obj) =>
        if !cont.open then ContainerClosed
        else if obj.location != cont then NotInContainer
        else Moved(obj, caller)
  }

  /** `CmdGetObject.func`: the verdict, and on success the object is now carried by the caller; nothing else moves. */
  method Get(caller: Obj, args: string, search: Search, access: Access, beforeGet: BeforeGet, world: set<Obj>)
    returns (r: Outcome)
    requires caller in world && Within(world, search)
    modifies world`location
    ensures r == old(GetVerdict(caller, args, search, access, beforeGet, world))
    ensures r.Moved? ==> r.obj.location == caller
    ensures forall o :: o in world && !(r.Moved? && o == r.obj) ==> o.location == old(o.location)
  {
    if args == [] {
      return NoArgs;
    }
    var rest := LStrip(args);
    var parts := SplitOnce(rest, From);
    if parts.None? {
      r := GetPlain(caller, rest, search, access, beforeGet, world);
    } else {
      r := GetFrom(caller, parts.value.0, parts.value.1, search, world);
    }
  }

  /** The `get <name>` branch of `CmdGetObject.func`. */
  method GetPlain(caller: Obj, name: string, search: Search, access: Access, beforeGet: BeforeGet, world: set<Obj>)
    returns (r: Outcome)
    requires caller in world && Within(world, search)
    modifies world`location
    ensures r == old(GetPlainVerdict(caller, name, search, access, beforeGet, world))
    ensures r.Moved? ==> r.obj.location == caller
    ensures forall o :: o in world && !(r.Moved? && o == r.obj) ==> o.location == old(o.location)
  {
    var objs := search(caller, name);
    if objs.None? {
      return NoItem;
    }
    var obj := objs.value;
    if caller == obj {
      return GetSelf;
    }
    if !access(obj, caller, "get") {
      if obj.getErrMsg != [] {
        return Refused(obj.getErrMsg);
      }
      return Refused(CantPickUp);
    }
    if !beforeGet(obj, caller) {
      return Vetoed;
    }
    if obj.location == caller {
      return AlreadyHeld;
    }
    obj.location := caller;
    return Moved(obj, caller);
  }

  /** The `get <name> from <container>` branch of `CmdGetObject.func`. */
  method GetFrom(caller: Obj, objName: string, contName: string, search: Search, world: set<Obj>)
    returns (r: Outcome)
    requires caller in world && Within(world, search)
    modifies world`location
    ensures r == old(GetFromVerdict(caller, objName, contName, search, world))
    ensures r.Moved? ==> r.obj.location == caller
    ensures forall o :: o in world && !(r.Moved? && o == r.obj) ==> o.location == old(o.location)
  {
    var conts := search(caller, contName);
    if conts.None? {
      return NoContainer;
    }
    var cont := conts.value;
    var objs := search(cont, objName);
    if objs.None? {
      objs := search(caller, objName);
      if objs.None? {
        return NoItem;
      }
    }
    var obj := objs.value;
    if !cont.open {
      return ContainerClosed;
    }
    if obj.location != cont {
      return NotInContainer;
    }
    obj.location := caller;
    return Moved(obj, caller);
  }

  // ---------------------------------------------------------------------------
  // open and close

  /** What `parse` leaves for `func`: a stop, or a go-ahead with `self.target` (`None` when it was never set). */
  datatype Parsed = Interrupted | Proceed(target: Option<Obj>)

  /**
   * `CmdOpenObject.parse` (`opening`) and `CmdCloseObject.parse`: the target must
   * be found and must not already be open (respectively closed). An empty argument
   * stops the command here as well.
   */
  function ParseTarget(caller: Obj, args: string, search: Search, world: set<Obj>, opening: bool): (p: Parsed)
    requires caller in world && Within(world, search)
    reads world
    ensures p.Proceed? ==> args != [] && p.target.Some? && search(caller, LStrip(args)) == p.target
    ensures p.Proceed? && opening ==> !p.target.value.open
    ensures p.Proceed? && !opening ==> !p.target.value.closed
    ensures args != [] && search(caller, LStrip(args)).Some? ==>
              (p.Proceed? <==> !(if opening then search(caller, LStrip(args)).value.open else search(caller, LStrip(args)).value.closed))
  {
    if args == [] then Interrupted
    else ParseFound(caller, args, search, world, opening)
  }

  /** The lookup and already-in-that-state check both parses make once there is an argument. */
  function ParseFound(caller: Obj, args: string, search: Search, world: set<Obj>, opening: bool): Parsed
    requires caller in world && Within(world, search)
    reads world
  {
    match search(caller, LStrip(args))
    case None => Interrupted
    case Some(t) => if (if opening then t.open else t.closed) then Interrupted else Proceed(Some(t))
  }

  /**
   * The parses as written: with an empty argument they print the prompt and
   * return without raising `InterruptCommand`, so `func` still runs, on a
   * `self.target` this call never set.
   */
  function ParseTargetAsWritten(caller: Obj, args: string, search: Search, world: set<Obj>, opening: bool): (p: Parsed)
    requires caller in world && Within(world, search)
    reads world
    ensures args != [] ==> p == ParseTarget(caller, args, search, world, opening)
    ensures args == [] ==> p == Proceed(None)
  {
    if args == [] then Proceed(None)
    else ParseFound(caller, args, search, world, opening)
  }

  /** The discrepancy: for an empty argument the written parse goes on to `func`, the intended one stops. */
  lemma EmptyArgumentReachesFunc(caller: Obj, search: Search, world: set<Obj>, opening: bool)
    requires caller in world && Within(world, search)
    ensures ParseTargetAsWritten(caller, [], search, world, opening).Proceed?
    ensures ParseTargetAsWritten(caller, [], search, world, opening).target.None?
    ensures ParseTarget(caller, [], search, world, opening) == Interrupted
  {
  }

  /** How `func` ends: refused, done, or raising because a door has no return exit. */
  datatype Change = CannotChange | Changed | NoReturnExit

  /** A door and its return exit agree on their flags and their traverse lock. */
  predicate Mirrored(door: Obj)
    reads door, door.returnExit
  {
    door.returnExit != null ==>
      door.returnExit.open == door.open && door.returnExit.closed == door.closed
      && Traverse in door.locks && Traverse in door.returnExit.locks
      && door.locks[Traverse] == door.returnExit.locks[Traverse]
  }

  /** The traverse lock a door gets when opened (`true()`) or closed (`false()`). */
  function TraverseCheck(opening: bool): string {
    if opening then "true()" else "false()"
  }

  /**
   * `CmdOpenObject.func` (`opening`) and `CmdCloseObject.func`: anything but a
   * container or a door is refused unchanged. Otherwise `open` becomes `opening`
   * and `closed` its negation; a door also gets the traverse lock on both sides
   * and passes the flags to its return exit, or raises after its own update when
   * it has none. Nothing else changes.
   */
  method SetState(target: Obj, opening: bool, world: set<Obj>) returns (r: Change)
    requires target in world && (target.returnExit != null ==> target.returnExit in world)
    modifies world`open, world`closed, world`locks
    ensures target.kind == OtherKind <==> r == CannotChange
    ensures r == CannotChange ==>
              forall o :: o in world ==> o.open == old(o.open) && o.closed == old(o.closed) && o.locks == old(o.locks)
    ensures r != CannotChange ==> target.open == opening && target.closed == !opening
    ensures r == NoReturnExit <==> target.kind == DoorKind && target.returnExit == null
    ensures target.kind == DoorKind ==> target.locks == old(target.locks)[Traverse := TraverseCheck(opening)]
    ensures target.kind == DoorKind && r == Changed ==>
              Mirrored(target) && target.returnExit.open == opening && target.returnExit.locks[Traverse] == TraverseCheck(opening)
    ensures target.kind == DoorKind ==>
              target.DisplayName() == Some((if opening then "open " else "closed ") + target.key)
    ensures target.kind == ContainerKind ==> target.locks == old(target.locks)
    ensures target.kind == DoorKind && target.returnExit != null ==>
              target.returnExit.locks == old(target.returnExit.locks)[Traverse := TraverseCheck(opening)]
              && target.returnExit.open == opening && target.returnExit.closed == !opening
    ensures forall o :: o in world && o != target && !(target.kind == DoorKind && o == target.returnExit) ==>
              o.open == old(o.open) && o.closed == old(o.closed) && o.locks == old(o.locks)
  {
    if target.kind == OtherKind {
      return CannotChange;
    }
    target.closed := !opening;
    target.open := opening;
    if target.kind == DoorKind {
      var raised := target.SetLock(Traverse, TraverseCheck(opening));
      if raised {
        return NoReturnExit;
      }
      target.returnExit.closed := !opening;
      target.returnExit.open := opening;
    }
    return Changed;
  }
}
