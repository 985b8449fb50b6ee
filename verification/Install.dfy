/**
 Installing the agent binary on the remote, by any number of clients at once. The lock file is
 created with `touch`, which excludes nobody, so no step here looks at it; what keeps the binary
 whole is that each client copies into a file of its own and then renames it into place.

 A path names an inode, an open file keeps writing to its inode, and a rename rebinds a path.
 */
module Install {
  import opened Wrappers

  type Bytes = seq<bv8>
  type Inode = nat
  type ClientId = nat

  datatype Path = Agent | Temp(uuid: nat) | LockFile

  datatype File = File(data: Bytes, exec: bool)

  datatype Pc =
    | Starting
    | Touched                                // lock file touched
    | Copying(uuid: nat, ino: Inode, written: nat)
    | Copied(uuid: nat, ino: Inode)
    | Renamed(ino: Inode)
    | Executable(ino: Inode)

  /** `Working` until the body returns, `Returning` until the deferred unlock has run, then `Out`. */
  datatype Phase = Working | Returning | Out

  datatype Client = Client(binary: Bytes, pc: Pc, phase: Phase)

  datatype State = State(dir: map<Path, Inode>, files: map<Inode, File>, clients: map<ClientId, Client>)

  datatype Step =
    | Arrive(i: ClientId, binary: Bytes)
    | Touch(i: ClientId, ino: Inode)
    | Open(i: ClientId, uuid: nat, ino: Inode)
    | Write(i: ClientId, n: nat)
    | CopyReturns(i: ClientId)
    | Rename(i: ClientId)
    | Chmod(i: ClientId)
    | Clean(i: ClientId)                     // the staging clean-up, whose failure is ignored
    | Fail(i: ClientId)                      // any step of the body fails
    | Unlock(i: ClientId)
    | Crash(i: ClientId)

  function To(st: State, i: ClientId, pc: Pc): State
    requires i in st.clients
  {
    st.(clients := st.clients[i := st.clients[i].(pc := pc)])
  }

  function Phased(st: State, i: ClientId, phase: Phase): State
    requires i in st.clients
  {
    st.(clients := st.clients[i := st.clients[i].(phase := phase)])
  }

  /** A client's step: the body's operations, which any other client's may fall between. */
  function TryWork(st: State, i: ClientId, client: Client, step: Step): Option<State>
    requires i in st.clients && st.clients[i] == client
  {
    match (step, client.pc)
    case (Touch(_, ino), Starting) =>
      if LockFile in st.dir then Some(To(st, i, Touched))
      else if ino in st.files then None
      else Some(To(st, i, Touched).(dir := st.dir[LockFile := ino], files := st.files[ino := File([], false)]))
    case (Open(_, uuid, ino), Touched) =>
      if Temp(uuid) in st.dir || ino in st.files then None
      else Some(To(st, i, Copying(uuid, ino, 0)).(
                  dir := st.dir[Temp(uuid) := ino], files := st.files[ino := File([], false)]))
    case (Write(_, n), Copying(uuid, ino, written)) =>
      if written + n > |client.binary| || ino !in st.files then None
      else
        var file := st.files[ino];
        Some(To(st, i, Copying(uuid, ino, written + n)).(
               files := st.files[ino := file.(data := file.data + client.binary[written..written + n])]))
    case (CopyReturns(_), Copying(uuid, ino, written)) =>
      if written < |client.binary| then None else Some(To(st, i, Copied(uuid, ino)))
    case (Rename(_), Copied(uuid, ino)) =>
      if Temp(uuid) !in st.dir then None
      else Some(To(st, i, Renamed(ino)).(dir := (st.dir - {Temp(uuid)})[Agent := st.dir[Temp(uuid)]]))
    case (Chmod(_), Renamed(ino)) =>
      if Agent !in st.dir || st.dir[Agent] !in st.files then None
      else
        var now := st.dir[Agent];
        Some(To(st, i, Executable(ino)).(files := st.files[now := st.files[now].(exec := true)]))
    case (Clean(_), Executable(_)) => Some(Phased(st, i, Returning))
    case (Fail(_), Starting) => Some(Phased(st, i, Out))
    case (Fail(_), _) => Some(Phased(st, i, Returning))
    case _ => None
  }

  function Try(st: State, step: Step): Option<State> {
    if step.Arrive? then
      if step.i in st.clients then None
      else Some(st.(clients := st.clients[step.i := Client(step.binary, Starting, Working)]))
    else if step.i !in st.clients then None
    else
      var client := st.clients[step.i];
      if step.Crash? then Some(Phased(st, step.i, Out))
      else if step.Unlock? then
        if client.phase != Returning then None
        else Some(Phased(st, step.i, Out).(dir := st.dir - {LockFile}))
      else if client.phase != Working then None
      else TryWork(st, step.i, client, step)
  }

  function Run(st: State, steps: seq<Step>): Option<State>
    decreases |steps|
  {
    if steps == [] then Some(st) else
    match Try(st, steps[0])
    case None => None
    case Some(next) => Run(next, steps[1..])
  }

  // ----- what every interleaving keeps ------------------------------------------------------

  function Own(pc: Pc): Option<Inode> {
    match pc
    case Copying(_, ino, _) => Some(ino)
    case Copied(_, ino) => Some(ino)
    case Renamed(ino) => Some(ino)
    case Executable(ino) => Some(ino)
    case _ => None
  }

  /** A client's own file holds exactly what the client wrote. */
  predicate Faithful(client: Client, files: map<Inode, File>) {
    match client.pc
    case Copying(_, ino, written) =>
      written <= |client.binary| && ino in files && files[ino].data == client.binary[..written]
    case Copied(_, ino) => ino in files && files[ino].data == client.binary
    case Renamed(ino) => ino in files && files[ino].data == client.binary
    case Executable(ino) => ino in files && files[ino].data == client.binary
    case _ => true
  }

  /** Until it is renamed, a client's file is reached by its temporary name, and by no other. */
  ghost predicate Hidden(client: Client, dir: map<Path, Inode>) {
    client.pc.Copying? || client.pc.Copied? ==>
      && Temp(client.pc.uuid) in dir
      && forall p :: p in dir ==> (dir[p] == client.pc.ino <==> p == Temp(client.pc.uuid))
  }

  /** Each client's file is its own. */
  ghost predicate Private(st: State) {
    && (forall i :: i in st.clients ==> Faithful(st.clients[i], st.files))
    && (forall i, j :: i in st.clients && j in st.clients && i != j && Own(st.clients[i].pc).Some? ==>
          Own(st.clients[i].pc) != Own(st.clients[j].pc))
  }

  ghost predicate Apart(st: State) {
    && (forall p :: p in st.dir ==> st.dir[p] in st.files)
    && (forall i :: i in st.clients ==> Hidden(st.clients[i], st.dir))
  }

  ghost predicate Installed(st: State, i: ClientId) {
    i in st.clients && (st.clients[i].pc.Renamed? || st.clients[i].pc.Executable?)
    && Agent in st.dir && st.dir[Agent] == st.clients[i].pc.ino
  }

  /** The agent path is as it was at the start, or names the file of a client that renamed it there. */
  ghost predicate Whole(st: State, first: State) {
    || (Agent !in st.dir && Agent !in first.dir)
    || (Agent in st.dir && Agent in first.dir && st.dir[Agent] == first.dir[Agent]
        && st.dir[Agent] in first.files && st.dir[Agent] in st.files
        && st.files[st.dir[Agent]].data == first.files[st.dir[Agent]].data
        && (first.files[st.dir[Agent]].exec ==> st.files[st.dir[Agent]].exec))
    || (exists i :: Installed(st, i))
  }

  /** Inodes of the first state stay out of the clients' hands. */
  ghost predicate OldApart(st: State, first: State) {
    && first.files.Keys <= st.files.Keys
    && forall i :: i in st.clients && Own(st.clients[i].pc).Some? ==> Own(st.clients[i].pc).value !in first.files
  }

  /** An installed file that is not executable belongs to a client that has not done its chmod. */
  ghost predicate ChmodPending(st: State) {
    forall i :: Installed(st, i) && st.dir[Agent] in st.files && !st.files[st.dir[Agent]].exec ==>
      st.clients[i].pc.Renamed?
  }

  ghost predicate Inv(st: State, first: State) {
    Private(st) && Apart(st) && Whole(st, first) && OldApart(st, first) && ChmodPending(st)
  }

  ghost predicate Fresh(first: State) {
    && first.clients == map[]
    && (forall p :: p in first.dir ==> first.dir[p] in first.files)
  }

  /** One step changes one client, and no file's content but that client's own. */
  lemma Effect(st: State, step: Step, next: State)
    requires Try(st, step) == Some(next)
    ensures step.i in next.clients && next.clients == st.clients[step.i := next.clients[step.i]]
    ensures st.files.Keys <= next.files.Keys
    ensures forall ino :: ino in st.files ==> (st.files[ino].exec ==> next.files[ino].exec)
    ensures forall ino :: ino in st.files && !(step.Write? && Own(st.clients[step.i].pc) == Some(ino)) ==>
              next.files[ino].data == st.files[ino].data
    ensures var was := if step.i in st.clients then Own(st.clients[step.i].pc) else None;
            var own := Own(next.clients[step.i].pc);
            own == was || (step.Open? && own.Some? && own.value !in st.files && own.value in next.files)
  {
  }

  lemma OwnFile(st: State, step: Step, next: State)
    requires Try(st, step) == Some(next)
    requires step.i in st.clients ==> Faithful(st.clients[step.i], st.files)
    ensures Faithful(next.clients[step.i], next.files)
  {
    if step.Write? {
      var client := st.clients[step.i];
      var w := client.pc.written;
      assert client.binary[..w] + client.binary[w..w + step.n] == client.binary[..w + step.n];
    }
  }

  lemma PrivateKeeps(st: State, step: Step, next: State)
    requires Private(st) && Try(st, step) == Some(next)
    ensures Private(next)
  {
    Effect(st, step, next);
    OwnFile(st, step, next);
    forall i | i in next.clients
      ensures Faithful(next.clients[i], next.files)
    {
      if i != step.i {
        assert Faithful(st.clients[i], st.files);
      }
    }
    forall i, j | i in next.clients && j in next.clients && i != j && Own(next.clients[i].pc).Some?
      ensures Own(next.clients[i].pc) != Own(next.clients[j].pc)
    {
      OwnIsFile(st, i);
      OwnIsFile(st, j);
    }
  }

  lemma OwnIsFile(st: State, i: ClientId)
    requires Private(st)
    ensures i in st.clients && Own(st.clients[i].pc).Some? ==> Own(st.clients[i].pc).value in st.files
  {
    if i in st.clients {
      assert Faithful(st.clients[i], st.files);
    }
  }

  /** What a step does to the directory. */
  lemma DirEffect(st: State, step: Step, next: State)
    requires Try(st, step) == Some(next)
    ensures match step
            case Touch(_, ino) => next.dir == st.dir || (ino !in st.files && next.dir == st.dir[LockFile := ino])
            case Open(i, uuid, ino) =>
              && Temp(uuid) !in st.dir && ino !in st.files && next.dir == st.dir[Temp(uuid) := ino]
              && i in next.clients && next.clients[i].pc == Copying(uuid, ino, 0)
            case Rename(i) =>
              && i in st.clients && st.clients[i].pc.Copied? && Temp(st.clients[i].pc.uuid) in st.dir
              && next.dir == (st.dir - {Temp(st.clients[i].pc.uuid)})[Agent := st.dir[Temp(st.clients[i].pc.uuid)]]
              && next.clients[i].pc == Renamed(st.clients[i].pc.ino) && next.files == st.files
            case Unlock(_) => next.dir == st.dir - {LockFile}
            case _ => next.dir == st.dir
  {
  }

  lemma HiddenKeeps(st: State, step: Step, next: State, j: ClientId)
    requires Private(st) && Apart(st) && Try(st, step) == Some(next)
    requires j in st.clients && j != step.i
    ensures Hidden(st.clients[j], next.dir)
  {
    DirEffect(st, step, next);
    assert Hidden(st.clients[j], st.dir) && Faithful(st.clients[j], st.files);
    if step.Rename? {
      assert Hidden(st.clients[step.i], st.dir);
    }
  }

  lemma OwnHidden(st: State, step: Step, next: State)
    requires Apart(st) && Try(st, step) == Some(next)
    requires step.i in st.clients ==> Faithful(st.clients[step.i], st.files) && Hidden(st.clients[step.i], st.dir)
    ensures Hidden(next.clients[step.i], next.dir)
  {
    DirEffect(st, step, next);
  }

  lemma ApartKeeps(st: State, step: Step, next: State)
    requires Private(st) && Apart(st) && Try(st, step) == Some(next)
    ensures Apart(next)
  {
    Effect(st, step, next);
    OwnHidden(st, step, next);
    forall j | j in next.clients
      ensures Hidden(next.clients[j], next.dir)
    {
      if j != step.i {
        HiddenKeeps(st, step, next, j);
      }
    }
    PathsLead(st, step, next);
  }

  lemma PathsLead(st: State, step: Step, next: State)
    requires (forall p :: p in st.dir ==> st.dir[p] in st.files) && Try(st, step) == Some(next)
    ensures forall p :: p in next.dir ==> next.dir[p] in next.files
  {
  }

  lemma OldApartKeeps(st: State, step: Step, next: State, first: State)
    requires Private(st) && OldApart(st, first) && Try(st, step) == Some(next)
    ensures OldApart(next, first)
  {
    Effect(st, step, next);
  }

  lemma WholeKeeps(st: State, step: Step, next: State, first: State)
    requires Inv(st, first) && Try(st, step) == Some(next)
    ensures Whole(next, first)
  {
    Effect(st, step, next);
    DirEffect(st, step, next);
    if step.Rename? {
      assert Hidden(st.clients[step.i], st.dir);
      assert Installed(next, step.i);
    } else {
      assert Agent in next.dir <==> Agent in st.dir;
      if i :| Installed(st, i) {
        StaysInstalled(st, step, next, i);
      }
    }
  }

  lemma StaysInstalled(st: State, step: Step, next: State, i: ClientId)
    requires Installed(st, i) && Try(st, step) == Some(next) && !step.Rename?
    ensures Installed(next, i)
  {
  }

  lemma ChmodPendingKeeps(st: State, step: Step, next: State)
    requires Private(st) && Apart(st) && ChmodPending(st) && Try(st, step) == Some(next)
    ensures ChmodPending(next)
  {
    Effect(st, step, next);
    DirEffect(st, step, next);
  }

  lemma StepKeeps(st: State, step: Step, next: State, first: State)
    requires Inv(st, first) && Try(st, step) == Some(next)
    ensures Inv(next, first)
  {
    PrivateKeeps(st, step, next);
    ApartKeeps(st, step, next);
    OldApartKeeps(st, step, next, first);
    WholeKeeps(st, step, next, first);
    ChmodPendingKeeps(st, step, next);
  }

  lemma {:induction false} RunKeeps(st: State, steps: seq<Step>, end: State, first: State)
    requires Inv(st, first) && Run(st, steps) == Some(end)
    ensures Inv(end, first)
    ensures Agent in st.dir ==> Agent in end.dir
    decreases |steps|
  {
    if steps != [] {
      var next := Try(st, steps[0]).value;
      StepKeeps(st, steps[0], next, first);
      DirEffect(st, steps[0], next);
      RunKeeps(next, steps[1..], end, first);
    }
  }

  /**
   Whatever the interleaving of any number of clients, down to single writes and with crashes
   anywhere: the agent path is absent only if it always was, and otherwise holds its old content
   or the complete binary of one client that renamed it there. If what a client installed is not
   executable, that client has not got as far as its chmod.
   */
  lemma InstallIsAtomic(first: State, steps: seq<Step>, end: State)
    requires Fresh(first) && Run(first, steps) == Some(end)
    ensures Agent in first.dir ==> Agent in end.dir
    ensures Agent in end.dir ==>
              && end.dir[Agent] in end.files
              && (|| (Agent in first.dir && end.files[end.dir[Agent]].data == first.files[first.dir[Agent]].data)
                  || (exists i :: Installed(end, i) && end.files[end.dir[Agent]].data == end.clients[i].binary))
    ensures forall i :: Installed(end, i) && end.clients[i].pc.Executable? ==>
              end.dir[Agent] in end.files && end.files[end.dir[Agent]].exec
  {
    RunKeeps(first, steps, end, first);
    if Agent in end.dir {
      if i :| Installed(end, i) {
        assert Faithful(end.clients[i], end.files);
      }
    }
  }

  /** Once any client has renamed its file, an installed binary is in place for good. */
  lemma {:induction false} InstalledStays(st: State, steps: seq<Step>, end: State, first: State)
    requires Inv(st, first) && Run(st, steps) == Some(end)
    requires exists i :: Installed(st, i)
    ensures exists i :: Installed(end, i) && end.dir[Agent] in end.files && end.files[end.dir[Agent]].data == end.clients[i].binary
    decreases |steps|
  {
    var i :| Installed(st, i);
    if steps == [] {
      assert Faithful(st.clients[i], st.files);
    } else {
      var next := Try(st, steps[0]).value;
      StepKeeps(st, steps[0], next, first);
      if steps[0].Rename? {
        assert Hidden(st.clients[steps[0].i], st.dir);
        DirEffect(st, steps[0], next);
        assert Installed(next, steps[0].i);
      } else {
        StaysInstalled(st, steps[0], next, i);
      }
      InstalledStays(next, steps[1..], end, first);
    }
  }

  // ----- the lock is given back -------------------------------------------------------------

  /** A client that has touched the lock file and has not run its deferred unlock. */
  predicate Holds(client: Client) {
    client.pc != Starting && client.phase != Out
  }

  ghost predicate Held(st: State) {
    exists i :: i in st.clients && Holds(st.clients[i])
  }

  /** Nobody has touched the lock file. */
  ghost predicate Untouched(st: State) {
    forall i :: i in st.clients ==> st.clients[i].pc == Starting
  }

  /** A lock file is one that was there before anyone came, or someone holds it. */
  ghost predicate Locked(st: State, first: State) {
    LockFile in st.dir ==> Held(st) || (LockFile in first.dir && Untouched(st))
  }

  /** What a step does to the lock file and to the one client it is of. */
  lemma LockEffect(st: State, step: Step, next: State)
    requires Try(st, step) == Some(next) && !step.Crash?
    ensures step.i in next.clients && next.clients == st.clients[step.i := next.clients[step.i]]
    ensures step.Unlock? ==> LockFile !in next.dir
    ensures step.Touch? ==> LockFile in next.dir && Holds(next.clients[step.i])
    ensures !step.Unlock? && !step.Touch? ==> (LockFile in next.dir <==> LockFile in st.dir)
    ensures !step.Unlock? && step.i in st.clients ==>
              (Holds(st.clients[step.i]) ==> Holds(next.clients[step.i]))
    ensures !step.Touch? && (step.i in st.clients ==> st.clients[step.i].pc == Starting) ==>
              next.clients[step.i].pc == Starting
  {
  }

  lemma LockedKeeps(st: State, step: Step, next: State, first: State)
    requires Locked(st, first) && Try(st, step) == Some(next) && !step.Crash?
    ensures Locked(next, first)
  {
    LockEffect(st, step, next);
    if LockFile in next.dir && !step.Touch? && Held(st) {
      var i :| i in st.clients && Holds(st.clients[i]);
      assert Holds(next.clients[i]);
    }
  }

  lemma {:induction false} LockedOn(st: State, steps: seq<Step>, end: State, first: State)
    requires Locked(st, first) && Run(st, steps) == Some(end) && forall s :: s in steps ==> !s.Crash?
    ensures Locked(end, first)
    decreases |steps|
  {
    if steps != [] {
      assert steps[0] in steps;
      LockedKeeps(st, steps[0], Try(st, steps[0]).value, first);
      LockedOn(Try(st, steps[0]).value, steps[1..], end, first);
    }
  }

  /**
   The lock is given back: when no client crashed and all that touched the lock file have returned,
   with an error or without, there is no lock file, unless nobody has touched the one of the start.
   */
  lemma LockIsGivenBack(first: State, steps: seq<Step>, end: State)
    requires Fresh(first) && Run(first, steps) == Some(end) && forall s :: s in steps ==> !s.Crash?
    requires forall i :: i in end.clients && end.clients[i].pc != Starting ==> end.clients[i].phase == Out
    ensures LockFile in end.dir ==>
              LockFile in first.dir && forall i :: i in end.clients ==> end.clients[i].pc == Starting
  {
    LockedOn(first, steps, end, first);
  }

  /** A client that is out although it had touched the lock file has run its unlock, or crashed. */
  lemma {:induction false} ReturnedHasUnlocked(st: State, steps: seq<Step>, end: State, i: ClientId)
    requires Run(st, steps) == Some(end) && i in end.clients && end.clients[i].pc != Starting && end.clients[i].phase == Out
    requires i in st.clients ==> st.clients[i].phase != Out
    ensures Unlock(i) in steps || Crash(i) in steps
    decreases |steps|
  {
    if steps != [] {
      var next := Try(st, steps[0]).value;
      assert steps[0] in steps && forall s :: s in steps[1..] ==> s in steps;
      if steps[0] != Unlock(i) && steps[0] != Crash(i) {
        OutOnlyBy(st, steps[0], next, i);
        if i in next.clients && next.clients[i].phase == Out {
          StaysOut(next, steps[1..], end, i);
        } else {
          ReturnedHasUnlocked(next, steps[1..], end, i);
        }
      }
    }
  }

  lemma OutOnlyBy(st: State, step: Step, next: State, i: ClientId)
    requires Try(st, step) == Some(next) && step != Unlock(i) && step != Crash(i)
    requires i in st.clients ==> st.clients[i].phase != Out
    ensures i in next.clients && next.clients[i].phase == Out ==> next.clients[i].pc == Starting
  {
  }

  /** A client that is out stays as it is. */
  lemma {:induction false} StaysOut(st: State, steps: seq<Step>, end: State, i: ClientId)
    requires Run(st, steps) == Some(end) && i in st.clients && st.clients[i].phase == Out
    ensures i in end.clients && end.clients[i] == st.clients[i]
    decreases |steps|
  {
    if steps != [] {
      StaysOut(Try(st, steps[0]).value, steps[1..], end, i);
    }
  }

  // ----- an installation that is left alone succeeds ----------------------------------------

  /** The steps of an installation in which nothing fails and nobody else takes part. */
  function Straight(i: ClientId, binary: Bytes, uuid: nat, lock: Inode, ino: Inode): seq<Step> {
    [Arrive(i, binary), Touch(i, lock)]
    + ([Open(i, uuid, ino), Write(i, |binary|)] + ([CopyReturns(i), Rename(i)] + ([Chmod(i), Clean(i)] + [Unlock(i)])))
  }

  lemma RunTwo(st: State, one: Step, mid: State, two: Step, next: State)
    requires Try(st, one) == Some(mid) && Try(mid, two) == Some(next)
    ensures Run(st, [one, two]) == Some(next)
  {
    assert [one, two][1..] == [two] && [two][1..] == [];
    assert Run(mid, [two]) == Run(next, []);
  }

  lemma {:induction false} RunJoins(st: State, a: seq<Step>, mid: State, b: seq<Step>, end: State)
    requires Run(st, a) == Some(mid) && Run(mid, b) == Some(end)
    ensures Run(st, a + b) == Some(end)
    decreases |a|
  {
    if a == [] {
      assert a + b == b;
    } else {
      assert (a + b)[1..] == a[1..] + b && (a + b)[0] == a[0];
      RunJoins(Try(st, a[0]).value, a[1..], mid, b, end);
    }
  }

  lemma StraightTouches(st: State, i: ClientId, binary: Bytes, lock: Inode) returns (next: State)
    requires i !in st.clients && lock !in st.files
    ensures Run(st, [Arrive(i, binary), Touch(i, lock)]) == Some(next)
    ensures next.clients == st.clients[i := Client(binary, Touched, Working)]
    ensures forall p :: p != LockFile ==> (p in next.dir <==> p in st.dir)
    ensures forall f :: f in st.files ==> f in next.files && next.files[f] == st.files[f]
    ensures forall f :: f in next.files ==> f in st.files || f == lock
  {
    var mid := Try(st, Arrive(i, binary)).value;
    next := Try(mid, Touch(i, lock)).value;
    RunTwo(st, Arrive(i, binary), mid, Touch(i, lock), next);
    assert next.clients == st.clients[i := Client(binary, Touched, Working)];
  }

  lemma StraightWrites(st: State, i: ClientId, binary: Bytes, uuid: nat, ino: Inode) returns (next: State)
    requires i in st.clients && st.clients[i] == Client(binary, Touched, Working)
    requires ino !in st.files && Temp(uuid) !in st.dir
    ensures Run(st, [Open(i, uuid, ino), Write(i, |binary|)]) == Some(next)
    ensures next.clients == st.clients[i := Client(binary, Copying(uuid, ino, |binary|), Working)]
    ensures next.dir == st.dir[Temp(uuid) := ino] && next.files == st.files[ino := File(binary, false)]
  {
    var mid := Try(st, Open(i, uuid, ino)).value;
    assert [] + binary[0..|binary|] == binary;
    next := Try(mid, Write(i, |binary|)).value;
    RunTwo(st, Open(i, uuid, ino), mid, Write(i, |binary|), next);
  }

  lemma StraightRenames(st: State, i: ClientId, binary: Bytes, uuid: nat, ino: Inode) returns (next: State)
    requires i in st.clients && st.clients[i] == Client(binary, Copying(uuid, ino, |binary|), Working)
    requires Temp(uuid) in st.dir && st.dir[Temp(uuid)] == ino
    ensures Run(st, [CopyReturns(i), Rename(i)]) == Some(next)
    ensures next.clients == st.clients[i := Client(binary, Renamed(ino), Working)]
    ensures next.dir == (st.dir - {Temp(uuid)})[Agent := ino] && next.files == st.files
  {
    var mid := Try(st, CopyReturns(i)).value;
    next := Try(mid, Rename(i)).value;
    RunTwo(st, CopyReturns(i), mid, Rename(i), next);
  }

  lemma StraightCleans(st: State, i: ClientId, binary: Bytes, ino: Inode) returns (next: State)
    requires i in st.clients && st.clients[i] == Client(binary, Renamed(ino), Working)
    requires Agent in st.dir && st.dir[Agent] == ino && ino in st.files
    ensures Run(st, [Chmod(i), Clean(i)]) == Some(next)
    ensures next.clients == st.clients[i := Client(binary, Executable(ino), Returning)]
    ensures next.dir == st.dir && next.files == st.files[ino := st.files[ino].(exec := true)]
  {
    var mid := Try(st, Chmod(i)).value;
    next := Try(mid, Clean(i)).value;
    RunTwo(st, Chmod(i), mid, Clean(i), next);
  }

  lemma StraightUnlocks(st: State, i: ClientId) returns (next: State)
    requires i in st.clients && st.clients[i].phase == Returning
    ensures Run(st, [Unlock(i)]) == Some(next)
    ensures next.dir == st.dir - {LockFile} && next.files == st.files
    ensures next.clients == st.clients[i := st.clients[i].(phase := Out)]
  {
    next := Try(st, Unlock(i)).value;
    assert [Unlock(i)][1..] == [];
    assert Run(st, [Unlock(i)]) == Run(next, []);
  }

  /** What is left once the file is open. */
  lemma StraightFinishes(st: State, i: ClientId, binary: Bytes, uuid: nat, ino: Inode) returns (end: State)
    requires i in st.clients && st.clients[i] == Client(binary, Touched, Working)
    requires ino !in st.files && Temp(uuid) !in st.dir
    ensures Run(st, [Open(i, uuid, ino), Write(i, |binary|)]
                    + ([CopyReturns(i), Rename(i)] + ([Chmod(i), Clean(i)] + [Unlock(i)]))) == Some(end)
    ensures end.dir == ((st.dir[Temp(uuid) := ino] - {Temp(uuid)})[Agent := ino]) - {LockFile}
    ensures end.files == st.files[ino := File(binary, true)]
    ensures end.clients == st.clients[i := Client(binary, Executable(ino), Out)]
  {
    var written := StraightWrites(st, i, binary, uuid, ino);
    var renamed := StraightRenames(written, i, binary, uuid, ino);
    var cleaned := StraightCleans(renamed, i, binary, ino);
    end := StraightUnlocks(cleaned, i);
    var last, third := [Unlock(i)], [Chmod(i), Clean(i)];
    RunJoins(cleaned, [], cleaned, last, end);
    RunJoins(renamed, third, cleaned, last, end);
    RunJoins(written, [CopyReturns(i), Rename(i)], renamed, third + last, end);
    RunJoins(st, [Open(i, uuid, ino), Write(i, |binary|)], written, [CopyReturns(i), Rename(i)] + (third + last), end);
  }

  /**
   Whatever was there before, an installation in which nothing fails puts its binary in place,
   executable, and leaves neither its temporary file nor a lock; what else was stored is unchanged.
   */
  lemma InstallSucceeds(st: State, i: ClientId, binary: Bytes, uuid: nat, lock: Inode, ino: Inode) returns (end: State)
    requires i !in st.clients && lock != ino && lock !in st.files && ino !in st.files && Temp(uuid) !in st.dir
    ensures Run(st, Straight(i, binary, uuid, lock, ino)) == Some(end)
    ensures Agent in end.dir && end.dir[Agent] in end.files && end.files[end.dir[Agent]] == File(binary, true)
    ensures LockFile !in end.dir && Temp(uuid) !in end.dir && i in end.clients && end.clients[i].phase == Out
    ensures forall f :: f in st.files ==> f in end.files && end.files[f] == st.files[f]
  {
    var touched := StraightTouches(st, i, binary, lock);
    end := StraightFinishes(touched, i, binary, uuid, ino);
    RunJoins(st, [Arrive(i, binary), Touch(i, lock)], touched,
             [Open(i, uuid, ino), Write(i, |binary|)]
             + ([CopyReturns(i), Rename(i)] + ([Chmod(i), Clean(i)] + [Unlock(i)])), end);
  }
}
