/**
 `run_acceptance`: a staged body in which any stage may raise, and cleanups that get their turn until one
 of them ends in an exception that nobody expects. The contract of `Run` holds for every pattern of
 failures and interference.
 */
module AcceptanceRunner {
  import opened Wrappers
  import opened AcceptanceHost

  datatype Stage =
    | Setup | SourceIdentity | InputManifest | ImageBuild
    | ImageIdentity | RuntimeHarness | InputRecheck | JunitValidation

  /** The runner's own report and exit code, or the interpreter's traceback. */
  datatype Ending = Report(exit: int, failure: bool, cleanupFailed: bool, stage: Stage) | Traceback

  /** The stage of each command of the body, by the number of those before it. */
  function StageOf(n: nat): Stage
    requires n < 12
  {
    if n < 2 then Setup else if n < 3 then SourceIdentity else if n < 6 then InputManifest
    else if n < 7 then ImageBuild else if n < 9 then ImageIdentity else if n < 10 then RuntimeHarness
    else InputRecheck
  }

  /** What the `finally` clause does, in its order. */
  datatype Turn = Summary | OfContainers | OfImage | OfDirectory

  /** How the turns of the `finally` clause ended. */
  datatype Tally = Tally(failed: bool, escaped: bool, replies: seq<Reply<()>>) {
    /** A refusal is a failure, and an escape is the last thing that happens. */
    ghost predicate Right() {
      && (failed <==> Refused in replies)
      && (escaped <==> replies != [] && replies[|replies| - 1].Escaped?)
      && (forall i :: 0 <= i < |replies| && replies[i].Escaped? ==> i == |replies| - 1)
    }

    function With(reply: Reply<()>): (t: Tally)
      ensures Right() && !escaped ==> t.Right()
    {
      Tally(failed || reply.Refused?, reply.Escaped?, replies + [reply])
    }

    function And(more: Tally): (t: Tally)
      ensures Right() && !escaped && more.Right() ==> t.Right()
    {
      Tally(failed || more.failed, more.escaped, replies + more.replies)
    }
  }

  /** All that is due gets its turn if and only if nothing but the last turn escapes. */
  lemma EveryTurn(due: seq<Turn>, taken: seq<Turn>, tally: Tally)
    requires tally.Right() && |tally.replies| <= |due| && taken == due[..|tally.replies|]
    requires !tally.escaped ==> |tally.replies| == |due|
    ensures taken == due <==> forall i :: 0 <= i < |tally.replies| && tally.replies[i].Escaped? ==> i == |due| - 1
  {
    if taken == due {
      assert |tally.replies| == |due|;
    }
  }

  lemma PrefixOfSum<T>(a: seq<T>, b: seq<T>, n: nat)
    requires n <= |a|
    ensures (a + b)[..n] == a[..n]
  {
  }

  lemma SumOfPrefix<T>(a: seq<T>, b: seq<T>, n: nat)
    requires n <= |b|
    ensures (a + b)[..|a| + n] == a + b[..n]
  {
  }

  lemma WholePrefix<T>(s: seq<T>, n: nat)
    requires n <= |s|
    ensures s[..n] == s <==> n == |s|
  {
  }

  const NONE := Tally(false, false, [])

  /** `_inspect_image`: the image's id, if the reply is about an image of this run. */
  function InspectedId(reply: ImageReply, me: Identity, source: string): Outcome<string> {
    if !reply.Found? then Raised
    else if !ImageId(reply.image.id) || me.tag !in reply.image.tags then Raised
    else if reply.image.run != Some(me.runId) || reply.image.source != Some(source) then Raised
    else Ok(reply.image.id)
  }

  class Runner {
    const me: Identity
    const host: Host
    var tools: bool
    var owned: Option<string>
    var buildStarted: bool
    var harnessStarted: bool
    var sourceDigest: string
    var imageId: Option<string>
    var stage: Stage
    var first: Option<Inputs>   // the manifests before the build
    var second: Option<Inputs>  // the manifests after the harness
    ghost var found: Option<Image>     // the image that the inspection showed
    ghost var session: Option<string>  // the session that resources.json named when it was read
    ghost var adrift: Option<string>   // a directory that was left behind while it was being allocated
    ghost var turns: seq<Turn>

    constructor (me: Identity, host: Host)
      ensures this.me == me && this.host == host && Fresh()
    {
      this.me, this.host := me, host;
      tools, owned, buildStarted, harnessStarted := false, None, false, false;
      sourceDigest, imageId, stage := "", None, Setup;
      first, second := None, None;
      found, session, adrift, turns := None, None, None, [];
    }

    ghost predicate Fresh()
      reads this
    {
      && !tools && owned == None && !buildStarted && !harnessStarted && sourceDigest == "" && imageId == None
      && stage == Setup && first == None && second == None && adrift == None && turns == []
    }

    // ---- what the flags say about the host ----

    ghost predicate Flags()
      reads this
    {
      && (owned.Some? ==> tools && adrift.None?)
      && (buildStarted ==> sourceDigest != "" && owned.Some?)
      && (harnessStarted ==> owned.Some?)
    }

    /** Nobody takes on this run's identity. */
    predicate IdentityKept() {
      !host.setting.Impersonated?
    }

    ghost predicate Tracked()
      reads this, host
    {
      && (forall t :: t in host.images && host.images[t].run == Some(me.runId) ==>
            buildStarted && t == me.tag && host.images[t].source == Some(sourceDigest))
      && (!harnessStarted ==> host.NoContainerOfOurs(me))
      && (forall d :: d in host.directories && Claims(me, host.directories[d]) ==> RecordTruthful(host.directories[d]))
      && (forall d :: d in host.directories && host.directories[d].runner == Some(me.runId) ==>
            owned == Some(d) || adrift == Some(d))
    }

    ghost predicate RecordTruthful(d: Directory)
      reads this
    {
      d.resources.Some? && d.resources.value.ResourceRecord? && d.resources.value.runId == me.runId ==>
        d.resources.value.sessionId == me.session
    }

    /** What was removed carried all the marks that the source asks for. */
    ghost predicate Ours(r: Removal)
      reads this
    {
      match r
      case ImageRemoved(tag, image) => tag == me.tag && OurImage(image)
      case ContainerRemoved(_, marked) => session == Some(marked) && (IdentityKept() ==> marked == me.session)
      case DirectoryRemoved(path, d) => owned == Some(path) && d.isReal && d.runner == Some(me.runId)
    }

    /** The run's tag and both of its labels. */
    predicate Marked(image: Image)
      reads this
    {
      me.tag in image.tags && image.run == Some(me.runId) && image.source == Some(sourceDigest)
    }

    predicate OurImage(image: Image)
      reads this
    {
      Marked(image) && (imageId.Some? ==> image.id == imageId.value)
    }

    ghost predicate OnlyOursRemoved()
      reads this, host
    {
      forall i :: 0 <= i < |host.removals| ==> Ours(host.removals[i])
    }

    ghost predicate Inv()
      reads this, host
    {
      Flags() && (IdentityKept() ==> Tracked())
    }

    /** During the stages nothing is removed. */
    ghost predicate Staged()
      reads this, host
    {
      Inv() && OnTrack() && host.removals == [] && turns == []
    }

    /** Nothing of the run is left, unless its allocation was cut short: then a directory may be. */
    ghost predicate NothingLeft()
      reads this, host
    {
      host.NoImageOfOurs(me) && host.NoContainerOfOurs(me) && (adrift.None? ==> host.NoDirectoryOfOurs(me))
    }

    // ---- on a calm host ----

    ghost predicate OnTrack()
      reads this, host
    {
      host.Calm() ==>
        && DirectoryOnTrack() && ImageOnTrack() && ContainersOnTrack()
        && (first.Some? ==> first.value == host.inputs)
    }

    ghost predicate DirectoryOnTrack()
      reads this, host
    {
      owned.Some? ==> owned.value in host.directories && host.directories[owned.value] == Recorded(harnessStarted)
    }

    function Recorded(session: bool): Directory {
      Directory(true, Some(me.runId), if session then Some(ResourceRecord(me.runId, me.session)) else None)
    }

    ghost predicate ImageOnTrack()
      reads this, host
    {
      buildStarted ==> me.tag in host.images && IdOnTrack(InspectedId(Found(host.images[me.tag]), me, sourceDigest))
    }

    ghost predicate IdOnTrack(id: Outcome<string>)
      reads this
    {
      id.Ok? && (imageId.Some? ==> imageId.value == id.value)
    }

    ghost predicate ContainersOnTrack()
      reads this, host
    {
      forall c :: c in host.containers && host.containers[c] == me.session ==> HexId(c)
    }

    // ---- the stages ----

    /** The commands that went through so far. */
    function Log(): seq<Command>
      reads host.journal
    {
      host.journal.entries
    }

    function Tested(id: string, path: string, returncode: Option<int>): seq<Command> {
      if returncode.Some? then [RunTests(id, path, returncode.value)] else []
    }

    function Readings(seen: Inputs): seq<Command> {
      [Command.ReadBuildInputs(seen.build), Command.ReadProofInputs(seen.proof)]
    }

    ghost predicate FailedIn(s: Stage, from: nat, to: nat)
      reads this, host, host.journal
    {
      stage == s && from <= |Log()| < to
    }

    /** Others act, and then a command that changes nothing of ours is tried. */
    method Attempt(command: Command) returns (ok: bool)
      requires Staged()
      requires command.FindTools? || command.ReadCommit? || command.SaveRecord? || command.ReadReport?
      modifies host, host.journal
      ensures Staged()
      ensures Log() == old(Log()) + (if ok then [command] else [])
      ensures host.Calm() ==> ok && host.directories == old(host.directories) && host.inputs == old(host.inputs)
    {
      host.Interfere(me);
      ok := host.Perform(command);
    }

    method RequireTools() returns (ok: bool)
      requires Staged() && Fresh()
      modifies this`tools, host, host.journal
      ensures Staged() && (ok ==> tools && Log() == old(Log()) + [FindTools])
      ensures !ok ==> |Log()| <= |old(Log())| + 1
      ensures host.Calm() ==> ok
    {
      ok := Attempt(FindTools);  // _required_tools
      if !ok { return; }
      tools := true;
      ok := *;  // UV_PYTHON_DOWNLOADS == "never"
      ok := ok || host.Calm();
    }

    method Prepare() returns (ok: bool)
      requires Staged() && Fresh() && Log() == []
      modifies this`tools, this`owned, this`adrift, host, host.journal
      ensures Staged()
      ensures !ok ==> FailedIn(Setup, 0, 2)
      ensures ok ==> owned.Some? && Log() == [FindTools, Allocate(owned.value)]
      ensures host.Calm() ==> ok
    {
      ok := RequireTools();
      if !ok { return; }
      var path, left := host.AllocateDirectory(me);
      adrift := left;
      if !path.Reply? { return false; }
      owned := Some(path.value);
      return true;
    }

    method IdentifySource() returns (ok: bool)
      requires Staged() && owned.Some? && |Log()| == 2
      modifies this`stage, host, host.journal
      ensures Staged()
      ensures !ok ==> FailedIn(SourceIdentity, 2, 3)
      ensures ok ==> Log() == old(Log()) + [ReadCommit]
      ensures host.Calm() ==> ok
    {
      stage := SourceIdentity;
      ok := Attempt(ReadCommit);
    }

    /** Both manifests, one after the other, while others act in between. */
    method TakeBoth() returns (seen: Option<Inputs>)
      requires Staged()
      modifies host, host.journal
      ensures Staged()
      ensures seen.Some? ==> Log() == old(Log()) + Readings(seen.value)
      ensures old(Log()) <= Log() && (seen.None? ==> |Log()| <= |old(Log())| + 1)
      ensures host.Calm() ==> seen == Some(host.inputs) && host.inputs == old(host.inputs)
    {
      host.Interfere(me);
      var build := host.ReadBuildInputs();
      if build.None? { return None; }
      host.Interfere(me);
      var proof := host.ReadProofInputs();
      if proof.None? { return None; }
      return Some(Inputs(build.value, proof.value));
    }

    method TakeManifests() returns (ok: bool)
      requires Staged() && owned.Some? && !buildStarted && |Log()| == 3
      modifies this`stage, this`sourceDigest, this`first, host, host.journal
      ensures Staged()
      ensures !ok ==> FailedIn(InputManifest, 3, 6)
      ensures ok ==> first.Some? && sourceDigest == first.value.build
      ensures ok ==> Log() == old(Log()) + Readings(first.value) + [Saved(None)]
      ensures host.Calm() ==> ok
    {
      stage := InputManifest;
      var seen := TakeBoth();
      if seen.None? { return false; }
      sourceDigest := seen.value.build;
      first := seen;
      ok := Attempt(Saved(None));  // _write_json_atomic
    }

    /** runner.json as this run writes it. */
    function Saved(image: Option<string>): Command
      requires owned.Some? && first.Some?
      reads this
    {
      SaveRecord(owned.value, first.value.build, first.value.proof, image)
    }

    method BuildImage() returns (ok: bool)
      requires Staged() && owned.Some? && sourceDigest != "" && !buildStarted && imageId.None?
      requires |Log()| == 6
      modifies this`stage, this`buildStarted, host, host.journal
      ensures Staged()
      ensures !ok ==> FailedIn(ImageBuild, 6, 7)
      ensures ok ==> Log() == old(Log()) + [Command.BuildImage(me.tag, sourceDigest)]
      ensures ok ==> buildStarted
      ensures host.Calm() ==> ok
    {
      stage := ImageBuild;
      host.Interfere(me);
      buildStarted := true;
      ok := host.Build(me, sourceDigest);
    }

    /** Inspect the tag and recognize the run's own image. */
    method Recognize() returns (id: Outcome<string>)
      requires Staged() && buildStarted
      modifies this`found, host, host.journal
      ensures Staged()
      ensures |old(Log())| <= |Log()| <= |old(Log())| + 1
      ensures id.Ok? ==> found.Some? && found.value.id == id.value
      ensures id.Ok? ==> Log() == old(Log()) + [Command.InspectImage(me.tag, found.value)]
      ensures id.Ok? ==> ImageId(id.value) && Marked(found.value)
      ensures host.Calm() ==>
        me.tag in host.images && id == InspectedId(Found(host.images[me.tag]), me, sourceDigest) && id.Ok?
    {
      host.Interfere(me);
      var reply := host.ExamineImage(me.tag);
      if reply.Reply? && reply.value.Found? { found := Some(reply.value.image); }
      id := if reply.Reply? then InspectedId(reply.value, me, sourceDigest) else Raised;
    }

    method IdentifyImage() returns (ok: bool)
      requires Staged() && owned.Some? && buildStarted && imageId.None?
      requires first.Some? && |Log()| == 7
      modifies this`stage, this`imageId, this`found, host, host.journal
      ensures Staged()
      ensures !ok ==> FailedIn(ImageIdentity, 7, 9)
      ensures ok ==> found.Some? && imageId == Some(found.value.id) && ImageId(found.value.id) && Marked(found.value)
      ensures ok ==> Log() == old(Log()) + [Command.InspectImage(me.tag, found.value), Saved(imageId)]
      ensures host.Calm() ==> ok
    {
      stage := ImageIdentity;
      var id := Recognize();
      if id.Raised? { return false; }
      imageId := Some(id.value);
      ok := Attempt(Saved(imageId));  // _write_json_atomic
    }

    method RunHarness() returns (returncode: Option<int>)
      requires Staged() && owned.Some? && imageId.Some? && !harnessStarted
      modifies this`stage, this`harnessStarted, host, host.journal
      ensures Staged() && stage == RuntimeHarness
      ensures Log() == old(Log()) + Tested(imageId.value, owned.value, returncode)
      ensures host.Calm() ==> returncode == Some(0)
    {
      stage := RuntimeHarness;
      host.Interfere(me);
      harnessStarted := true;
      returncode := host.Harness(me, imageId.value, owned.value);
    }

    /** The manifests are taken once more. */
    method SameInputs() returns (ok: bool)
      requires Staged() && first.Some? && second.None?
      modifies this`second, host, host.journal
      ensures Staged() && (ok <==> second == first)
      ensures second.Some? ==> Log() == old(Log()) + Readings(second.value)
      ensures old(Log()) <= Log() && (second.None? ==> |Log()| <= |old(Log())| + 1)
      ensures host.Calm() ==> ok
    {
      second := TakeBoth();
      ok := second == first;
    }

    /** The inputs are rechecked before the harness's own result is looked at. */
    method Recheck(returncode: Option<int>) returns (ok: bool)
      requires Staged() && stage == RuntimeHarness && first.Some? && second.None?
      requires |Log()| == if returncode.Some? then 10 else 9
      modifies this`stage, this`second, host, host.journal
      ensures Staged()
      ensures !ok ==> if returncode.None? then FailedIn(RuntimeHarness, 9, 10) else FailedIn(InputRecheck, 10, 13)
      ensures old(Log()) <= Log() && (|Log()| >= 12 ==> second.Some?)
      ensures second.Some? ==> Log() == old(Log()) + Readings(second.value)
      ensures ok ==> returncode.Some?
      ensures ok <==> second == first
      ensures host.Calm() && returncode.Some? ==> ok
    {
      if returncode.None? { return false; }
      stage := InputRecheck;
      ok := SameInputs();
    }

    method Judge(returncode: Option<int>) returns (ok: bool)
      requires Staged() && owned.Some? && |Log()| == 12
      modifies this`stage, host, host.journal
      ensures Staged()
      ensures !ok ==> FailedIn(if returncode == Some(0) then JunitValidation else RuntimeHarness, 12, 13)
      ensures Log() == old(Log()) + (if ok then [ReadReport(owned.value)] else [])
      ensures ok ==> returncode == Some(0)
      ensures host.Calm() && returncode == Some(0) ==> ok
    {
      if returncode != Some(0) {
        stage := RuntimeHarness;
        return false;
      }
      stage := JunitValidation;
      ok := Attempt(ReadReport(owned.value));
    }

    /** What the host was asked to do before the build. */
    ghost function Asked(): seq<Command>
      requires owned.Some? && first.Some?
      reads this
    {
      [FindTools, Allocate(owned.value), ReadCommit] + Readings(first.value) + [Saved(None)]
    }

    /** What the host was asked to do before the tests. */
    ghost function Opening(): seq<Command>
      requires owned.Some? && first.Some? && found.Some?
      reads this
    {
      Asked() + [Command.BuildImage(me.tag, first.value.build)]
      + [Command.InspectImage(me.tag, found.value), Saved(Some(found.value.id))]
    }

    ghost function Closing(): seq<Command>
      requires owned.Some? && second.Some? && found.Some?
      reads this
    {
      Tested(found.value.id, owned.value, Some(0)) + Readings(second.value) + [ReadReport(owned.value)]
    }

    /** The image and the manifests of the run are at hand. */
    ghost predicate Ready()
      reads this
    {
      && owned.Some? && first.Some? && sourceDigest == first.value.build
      && found.Some? && imageId == Some(found.value.id) && ImageId(found.value.id) && Marked(found.value)
    }

    /** What the host was asked to do in a run that passed: both manifests before the build and after the tests. */
    ghost function Script(): seq<Command>
      requires owned.Some? && first.Some? && second.Some? && found.Some?
      reads this
    {
      Opening() + Closing()
    }

    ghost predicate AllPassed()
      reads this, host, host.journal
    {
      Ready() && second == first && Log() == Script()
    }

    /** The stage is the one whose next command did not go through, or whose outcome was refused. */
    ghost predicate Stopped()
      reads this, host, host.journal
    {
      var n := |Log()|;
      if n < 12 then stage == StageOf(n)
      else
        && n == 12 && first.Some? && second.Some? && Log()[9].RunTests?
        && stage == if second != first then InputRecheck
                    else if Log()[9].returncode != 0 then RuntimeHarness else JunitValidation
    }

    /** Everything that a build needs. */
    method GetReady() returns (ok: bool)
      requires Staged() && Fresh() && Log() == []
      modifies this, host, host.journal
      ensures Staged() && !buildStarted && !harnessStarted && imageId.None? && second.None?
      ensures !ok ==> |Log()| < 6 && stage == StageOf(|Log()|)
      ensures ok ==> owned.Some? && first.Some? && sourceDigest == first.value.build && Log() == Asked()
      ensures host.Calm() ==> ok
    {
      ok := Prepare();
      if !ok { return; }
      ok := IdentifySource();
      if !ok { return; }
      ok := TakeManifests();
    }

    /** The stages before the tests. */
    method Begin() returns (ok: bool)
      requires Staged() && Fresh() && Log() == []
      modifies this, host, host.journal
      ensures Staged()
      ensures !ok ==> |Log()| < 9 && stage == StageOf(|Log()|)
      ensures ok ==> Ready() && Log() == Opening() && second.None? && !harnessStarted
      ensures host.Calm() ==> ok
    {
      ok := GetReady();
      if !ok { return; }
      ok := BuildImage();
      if !ok { return; }
      ok := IdentifyImage();
    }

    /** The tests and what is made of them. */
    method Conclude() returns (ok: bool)
      requires Staged() && Ready() && second.None? && !harnessStarted && |Log()| == 9
      modifies this`stage, this`harnessStarted, this`second, host, host.journal
      ensures Staged() && Ready()
      ensures !ok ==> Stopped()
      ensures ok ==> second == first
      ensures ok ==> second.Some? && Log() == old(Log()) + Closing()
      ensures host.Calm() ==> ok
    {
      var returncode := RunHarness();
      ok := Recheck(returncode);
      if !ok { return; }
      ok := Judge(returncode);
    }

    /** The try body: `ok` is false when any of it raised. */
    method Body() returns (ok: bool)
      requires Staged() && Fresh() && Log() == []
      modifies this, host, host.journal
      ensures Staged()
      ensures !ok ==> Stopped()
      ensures ok ==> AllPassed() && owned.Some?
      ensures host.Calm() ==> ok
    {
      ok := Begin();
      if !ok { return; }
      ok := Conclude();
    }

    // ---- the cleanups ----

    /** Nothing with the run's identity has come up; what others did is not said. */
    twostate predicate NothingCameUp()
      reads this, host
    {
      IdentityKept() ==>
        && (old(host.NoImageOfOurs(me)) ==> host.NoImageOfOurs(me))
        && (forall c :: c in host.containers && host.containers[c] == me.session ==>
              c in old(host.containers) && old(host.containers)[c] == me.session)
    }

    /** A cleanup escapes exactly when its last command did. */
    twostate predicate Alarmed(escaped: bool)
      reads host.journal
    {
      host.journal.alarms == old(host.journal.alarms) + if escaped then 1 else 0
    }

    /** Others act between two commands of a cleanup. */
    method Meanwhile()
      requires Inv() && OnlyOursRemoved()
      modifies host`images, host`containers, host`directories, host`inputs
      ensures Inv() && OnlyOursRemoved() && NothingCameUp()
      ensures host.Calm() ==> host.Undisturbed()
    {
      host.Interfere(me);
    }

    /** Others act between looking at something and removing it. */
    method MeanwhileElsewhere(target: Target)
      requires Inv() && OnlyOursRemoved()
      modifies host`images, host`containers, host`directories, host`inputs
      ensures Inv() && OnlyOursRemoved() && NothingCameUp()
      ensures host.Calm() ==> host.Undisturbed()
      ensures target.ImageAt? && target.tag in host.images ==>
        target.tag in old(host.images) && host.images[target.tag] == old(host.images)[target.tag]
      ensures target.ContainerOf? && target.id in host.containers ==>
        target.id in old(host.containers) && host.containers[target.id] == old(host.containers)[target.id]
      ensures target.DirectoryAt? && target.path in host.directories ==>
        target.path in old(host.directories) && host.directories[target.path] == old(host.directories)[target.path]
    {
      host.InterfereElsewhere(me, target);
    }

    ghost predicate RealDirectory()
      reads this, host
    {
      owned.Some? && owned.value in host.directories && host.directories[owned.value].isReal
    }

    /** The owned directory holds a resources.json that the JSON reader chokes on. */
    ghost predicate Unreadable()
      reads this, host
    {
      RealDirectory() && host.directories[owned.value].resources == Some(ResourceRecord.Unreadable)
    }

    function Ended<T>(reply: Reply<T>): Reply<()> {
      match reply
      case Reply(_) => Reply(())
      case Refused => Refused
      case Escaped => Escaped
    }

    method CleanupContainers() returns (reply: Reply<()>)
      requires Inv() && owned.Some? && host.removals == []
      modifies this`session, this`turns, host, host.journal`alarms
      ensures Alarmed(reply.Escaped?)
      ensures Inv() && OnlyOursRemoved() && turns == old(turns) + [OfContainers]
      ensures IdentityKept() && reply.Reply? ==> host.NoContainerOfOurs(me)
      ensures host.Calm() ==> host.images == old(host.images) && host.directories == old(host.directories)
      ensures host.Calm() && old(OnTrack()) ==> reply.Reply?
      ensures host.Calm() ==> (reply.Escaped? <==> old(Unreadable()))
      ensures host.Calm() && old(Unreadable()) ==> host.removals == []
    {
      turns := turns + [OfContainers];
      Meanwhile();
      var seen := host.LookAt(owned.value);
      if !seen.Reply? { return Ended(seen); }
      if seen.value.None? || !seen.value.value.isReal { return Refused; }
      if seen.value.value.resources.None? { return if harnessStarted then Refused else Reply(()); }
      var named := ReadSession();
      if !named.Reply? { return Ended(named); }
      reply := RemoveContainers(named.value);
    }

    /** `_read_resource_record` */
    method ReadSession() returns (named: Reply<string>)
      requires Inv() && OnlyOursRemoved() && owned.Some?
      modifies host`images, host`containers, host`directories, host`inputs, host.journal`alarms
      ensures Alarmed(named.Escaped?)
      ensures Inv() && OnlyOursRemoved()
      ensures host.Calm() ==> host.Undisturbed()
      ensures IdentityKept() && named.Reply? ==> named.value == me.session
      ensures host.Calm() && old(RealDirectory()) ==> (named.Escaped? <==> old(Unreadable()))
      ensures host.Calm() && old(owned.value in host.directories && host.directories[owned.value] == Recorded(true)) ==>
        named == Reply(me.session)
    {
      Meanwhile();
      var seen := host.LookAt(owned.value);
      if !seen.Reply? { return if seen.Refused? then Refused else Escaped; }
      if seen.value.None? || seen.value.value.resources.None? { return Refused; }
      var recorded := host.Decode(seen.value.value.resources.value);
      if !recorded.Reply? { return if recorded.Refused? then Refused else Escaped; }
      if recorded.value.runId != me.runId { return Refused; }
      return Reply(recorded.value.sessionId);
    }

    method RemoveContainers(named: string) returns (reply: Reply<()>)
      requires Inv() && host.removals == [] && (IdentityKept() ==> named == me.session)
      modifies this`session, host, host.journal`alarms
      ensures Alarmed(reply.Escaped?)
      ensures Inv() && OnlyOursRemoved()
      ensures IdentityKept() && reply.Reply? ==> host.NoContainerOfOurs(me)
      ensures host.Calm() ==> host.images == old(host.images) && host.directories == old(host.directories)
      ensures host.Calm() ==> !reply.Escaped?
      ensures host.Calm() && named == me.session && old(ContainersOnTrack()) ==> reply.Reply?
    {
      session := Some(named);
      Meanwhile();
      var ids := host.ListContainers(named);
      if !ids.Reply? { return Ended(ids); }
      reply := RemoveListed(ids.value, named);
    }

    ghost predicate Listed(id: string)
      reads this, host
    {
      HexId(id) && id in host.containers && host.containers[id] == me.session
    }

    /** Each listed container is looked at once more before it goes. */
    method RemoveListed(ids: seq<string>, named: string) returns (reply: Reply<()>)
      requires Inv() && OnlyOursRemoved() && session == Some(named) && (IdentityKept() ==> named == me.session)
      requires IdentityKept() ==> forall c :: c in host.containers && host.containers[c] == me.session ==> c in ids
      requires forall i, j :: 0 <= i < j < |ids| ==> ids[i] != ids[j]
      modifies host, host.journal`alarms
      ensures Alarmed(reply.Escaped?)
      ensures Inv() && OnlyOursRemoved()
      ensures IdentityKept() && reply.Reply? ==> host.NoContainerOfOurs(me)
      ensures host.Calm() ==> host.images == old(host.images) && host.directories == old(host.directories)
      ensures host.Calm() ==> !reply.Escaped?
      ensures host.Calm() && named == me.session && (forall k :: 0 <= k < |ids| ==> old(Listed(ids[k]))) ==>
        reply.Reply?
    {
      var i := 0;
      while i < |ids|
        invariant 0 <= i <= |ids| && Inv() && OnlyOursRemoved() && host.journal.alarms == old(host.journal.alarms)
        invariant IdentityKept() ==> forall c :: c in host.containers && host.containers[c] == me.session ==>
          c in ids[i..]
        invariant host.Calm() ==> host.images == old(host.images) && host.directories == old(host.directories)
        invariant host.Calm() ==> forall k :: i <= k < |ids| && old(Listed(ids[k])) ==> Listed(ids[k])
      {
        reply := RemoveOne(ids[i], named);
        if !reply.Reply? { return; }
        i := i + 1;
      }
      return Reply(());
    }

    method RemoveOne(id: string, named: string) returns (reply: Reply<()>)
      requires Inv() && OnlyOursRemoved() && session == Some(named) && (IdentityKept() ==> named == me.session)
      modifies host, host.journal`alarms
      ensures Alarmed(reply.Escaped?)
      ensures Inv() && OnlyOursRemoved() && NothingCameUp()
      ensures reply.Reply? ==> id !in host.containers
      ensures host.Calm() ==> host.images == old(host.images) && host.directories == old(host.directories)
      ensures host.Calm() ==> host.containers in {old(host.containers), old(host.containers) - {id}}
      ensures host.Calm() ==> !reply.Escaped?
      ensures host.Calm() && named == me.session && old(Listed(id)) ==> reply.Reply?
    {
      if !HexId(id) { return Refused; }
      Meanwhile();
      var found := host.InspectContainer(id);
      if !found.Reply? { return Ended(found); }
      if found.value != named { return Refused; }
      reply := RemoveOwnContainer(id, named);
    }

    method RemoveOwnContainer(id: string, ghost named: string) returns (reply: Reply<()>)
      requires Inv() && OnlyOursRemoved() && session == Some(named) && (IdentityKept() ==> named == me.session)
      requires id in host.containers && host.containers[id] == named
      modifies host, host.journal`alarms
      ensures Alarmed(reply.Escaped?)
      ensures Inv() && OnlyOursRemoved() && NothingCameUp()
      ensures reply.Reply? ==> id !in host.containers
      ensures host.Calm() ==> host.images == old(host.images) && host.directories == old(host.directories)
      ensures host.Calm() ==> reply.Reply? && host.containers == old(host.containers) - {id}
    {
      MeanwhileElsewhere(ContainerOf(id));
      reply := host.RemoveContainer(id);
    }

    method CleanupImage() returns (reply: Reply<()>)
      requires Inv() && OnlyOursRemoved()
      modifies this`turns, host, host.journal`alarms
      ensures Alarmed(reply.Escaped?)
      ensures Inv() && OnlyOursRemoved() && NothingCameUp() && turns == old(turns) + [OfImage]
      ensures IdentityKept() && reply.Reply? ==> host.NoImageOfOurs(me)
      ensures host.Calm() ==> host.directories == old(host.directories) && !reply.Escaped?
      ensures host.Calm() && old(ImageOnTrack()) ==> reply.Reply?
    {
      turns := turns + [OfImage];
      if !buildStarted { return Reply(()); }
      Meanwhile();
      var seen := host.InspectImage(me.tag);
      if !seen.Reply? { return Ended(seen); }
      if seen.value.NoSuchImage? { return Reply(()); }
      var id := InspectedId(seen.value, me, sourceDigest);
      if id.Raised? || (imageId.Some? && imageId != Some(id.value)) { return Refused; }
      reply := RemoveOwnImage(seen.value.image);
    }

    method RemoveOwnImage(ghost image: Image) returns (reply: Reply<()>)
      requires Inv() && OnlyOursRemoved() && OurImage(image) && me.tag in host.images && host.images[me.tag] == image
      modifies host, host.journal`alarms
      ensures Alarmed(reply.Escaped?)
      ensures Inv() && OnlyOursRemoved() && NothingCameUp()
      ensures IdentityKept() && reply.Reply? ==> host.NoImageOfOurs(me)
      ensures host.Calm() ==> host.directories == old(host.directories) && reply.Reply?
    {
      MeanwhileElsewhere(ImageAt(me.tag));
      reply := host.RemoveImage(me.tag);
    }

    method CleanupDirectory() returns (reply: Reply<()>)
      requires Inv() && OnlyOursRemoved() && owned.Some?
      modifies this`turns, host, host.journal`alarms
      ensures Alarmed(reply.Escaped?)
      ensures Inv() && OnlyOursRemoved() && NothingCameUp() && turns == old(turns) + [OfDirectory]
      ensures IdentityKept() && reply.Reply? ==> host.NoDirectoryOfOurs(me)
      ensures host.Calm() ==> !reply.Escaped?
      ensures host.Calm() && old(DirectoryOnTrack()) ==> reply.Reply?
    {
      turns := turns + [OfDirectory];
      var path := owned.value;
      Meanwhile();
      var seen := host.LookAt(path);
      if !seen.Reply? { return Ended(seen); }
      if seen.value.None? { return Reply(()); }
      if !seen.value.value.isReal || seen.value.value.runner != Some(me.runId) { return Refused; }
      reply := RemoveOwnDirectory();
    }

    method RemoveOwnDirectory() returns (reply: Reply<()>)
      requires Inv() && OnlyOursRemoved() && owned.Some? && owned.value in host.directories
      requires host.directories[owned.value].isReal && host.directories[owned.value].runner == Some(me.runId)
      modifies host, host.journal`alarms
      ensures Alarmed(reply.Escaped?)
      ensures Inv() && OnlyOursRemoved() && NothingCameUp()
      ensures IdentityKept() && reply.Reply? ==> host.NoDirectoryOfOurs(me)
      ensures host.Calm() ==> reply.Reply?
    {
      MeanwhileElsewhere(DirectoryAt(owned.value));
      reply := host.RemoveTree(owned.value);
    }

    // ---- the finally clause ----

    function SummaryDue(failure: bool): seq<Turn>
      reads this
    {
      if failure && owned.Some? && stage in {RuntimeHarness, JunitValidation} then [Summary] else []
    }

    function ResourcesDue(): seq<Turn>
      reads this
    {
      (if tools && owned.Some? then [OfContainers] else []) + (if tools && sourceDigest != "" then [OfImage] else [])
    }

    function CleanupsDue(): seq<Turn>
      reads this
    {
      ResourcesDue() + (if owned.Some? then [OfDirectory] else [])
    }

    /** The turns that are due when the body has ended. */
    function Due(failure: bool): seq<Turn>
      reads this
    {
      SummaryDue(failure) + CleanupsDue()
    }

    /** The diagnostics of a failed run. They swallow their own exceptions, so only a signal can end them. */
    method Summarize(failure: bool) returns (tally: Tally)
      requires Inv() && host.removals == [] && turns == []
      modifies this`turns, host, host.journal`alarms
      ensures Alarmed(tally.escaped)
      ensures Inv() && host.removals == []
      ensures tally.Right() && !tally.failed && turns == SummaryDue(failure) && |tally.replies| == |turns|
      ensures host.Calm() ==> !tally.escaped && host.Undisturbed()
      ensures host.Calm() ==> (old(OnTrack()) ==> OnTrack()) && (old(Unreadable()) <==> Unreadable())
    {
      tally := NONE;
      if failure && owned.Some? && stage in {RuntimeHarness, JunitValidation} {
        turns := turns + [Summary];
        Meanwhile();
        var signal := host.Signalled();
        tally := NONE.With(if signal then Escaped else Reply(()));
      }
    }

    method CleanupResources() returns (tally: Tally)
      requires Inv() && host.removals == []
      modifies this`session, this`turns, host, host.journal`alarms
      ensures Alarmed(tally.escaped)
      ensures Inv() && OnlyOursRemoved()
      ensures tally.Right() && |tally.replies| <= |ResourcesDue()|
      ensures turns == old(turns) + ResourcesDue()[..|tally.replies|]
      ensures !tally.escaped ==> |tally.replies| == |ResourcesDue()|
      ensures IdentityKept() && !tally.failed && !tally.escaped ==> host.NoImageOfOurs(me) && host.NoContainerOfOurs(me)
      ensures host.Calm() ==> host.directories == old(host.directories)
      ensures host.Calm() && old(OnTrack()) ==> !tally.failed && !tally.escaped
      ensures host.Calm() ==> (tally.escaped <==> old(Unreadable()))
      ensures host.Calm() && old(Unreadable()) ==> turns == old(turns) + [OfContainers]
      ensures host.Calm() && old(Unreadable()) ==> host.images == old(host.images) && host.removals == []
    {
      tally := NONE;
      if tools {
        if owned.Some? {
          var reply := CleanupContainers();
          tally := tally.With(reply);
          if tally.escaped { return; }
        }
        if sourceDigest != "" {
          var reply := CleanupImage();
          tally := tally.With(reply);
        }
      }
    }

    twostate predicate Untouched()
      reads host
    {
      host.images == old(host.images) && host.directories == old(host.directories) && host.removals == []
    }

    method Cleanups() returns (tally: Tally)
      requires Inv() && host.removals == []
      modifies this`session, this`turns, host, host.journal`alarms
      ensures Alarmed(tally.escaped)
      ensures Inv() && OnlyOursRemoved()
      ensures tally.Right() && |tally.replies| <= |CleanupsDue()|
      ensures turns == old(turns) + CleanupsDue()[..|tally.replies|]
      ensures !tally.escaped ==> |tally.replies| == |CleanupsDue()|
      ensures IdentityKept() && !tally.failed && !tally.escaped ==> NothingLeft()
      ensures host.Calm() && old(OnTrack()) ==> !tally.failed && !tally.escaped
      ensures host.Calm() ==> (tally.escaped <==> old(Unreadable()))
      ensures host.Calm() && old(Unreadable()) ==> turns == old(turns) + [OfContainers]
      ensures host.Calm() && old(Unreadable()) ==> |tally.replies| < |CleanupsDue()| && Untouched()
    {
      tally := CleanupResources();
      PrefixOfSum(ResourcesDue(), if owned.Some? then [OfDirectory] else [], |tally.replies|);
      if tally.escaped { return; }
      if owned.Some? {
        var reply := CleanupDirectory();
        tally := tally.With(reply);
      }
    }

    method TakeTurns(failure: bool) returns (tally: Tally)
      requires Inv() && host.removals == [] && turns == []
      modifies this`session, this`turns, host, host.journal`alarms
      ensures Alarmed(tally.escaped)
      ensures Inv() && OnlyOursRemoved()
      ensures tally.Right() && |tally.replies| <= |Due(failure)| && turns == Due(failure)[..|tally.replies|]
      ensures !tally.escaped ==> |tally.replies| == |Due(failure)|
      ensures IdentityKept() && !tally.failed && !tally.escaped ==> NothingLeft()
      ensures host.Calm() && old(OnTrack()) ==> !tally.failed && !tally.escaped
      ensures host.Calm() ==> (tally.escaped <==> old(Unreadable()))
      ensures host.Calm() && old(Unreadable()) ==>
        |tally.replies| < |Due(failure)| && turns == SummaryDue(failure) + [OfContainers] && Untouched()
    {
      tally := Summarize(failure);
      PrefixOfSum(SummaryDue(failure), CleanupsDue(), |tally.replies|);
      if tally.escaped { return; }
      var cleanups := Cleanups();
      SumOfPrefix(SummaryDue(failure), CleanupsDue(), |cleanups.replies|);
      tally := tally.And(cleanups);
    }

    /**
     The `finally` clause: refusals are remembered and the next cleanup gets its turn all the same, but an
     exception that nobody expects ends it. On a calm host every turn that is due is taken if and only if
     resources.json can be read; if it cannot, the turn of the containers is the last one and image and
     directory stay.
     */
    method Cleanup(failure: bool) returns (tally: Tally)
      requires Inv() && host.removals == [] && turns == []
      modifies this`session, this`turns, host, host.journal`alarms
      ensures Alarmed(tally.escaped)
      ensures Inv() && OnlyOursRemoved()
      ensures tally.Right() && |tally.replies| <= |Due(failure)| && turns == Due(failure)[..|tally.replies|]
      ensures !tally.escaped ==> |tally.replies| == |Due(failure)|
      ensures IdentityKept() && !tally.failed && !tally.escaped ==> NothingLeft()
      ensures host.Calm() && old(OnTrack()) ==> !tally.failed && !tally.escaped
      ensures host.Calm() ==> (tally.escaped <==> old(Unreadable()))
      ensures host.Calm() ==> (turns == Due(failure) <==> !old(Unreadable()))
      ensures host.Calm() && old(Unreadable()) ==> turns == SummaryDue(failure) + [OfContainers] && Untouched()
    {
      tally := TakeTurns(failure);
      WholePrefix(Due(failure), |tally.replies|);
    }

    /**
     Exit code 0 means that every stage passed, the inputs stayed the same and nothing of the run is left;
     where nothing fails and nobody interferes, it is what the run ends with. A report without a cleanup
     failure means that nothing is left even after exit code 1. A traceback says neither. Whatever happens,
     nothing is removed that does not carry the run's marks.
     */
    method Run() returns (ending: Ending)
      requires Fresh() && Staged() && Log() == []
      modifies this, host, host.journal
      ensures ending.Report? && ending.failure ==> ending.stage == stage && Stopped()
      ensures ending.Report? ==> ending.exit == if ending.failure || ending.cleanupFailed then 1 else 0
      ensures ending.Report? && ending.exit == 0 ==> AllPassed()
      ensures ending.Report? ==> turns == Due(ending.failure)
      ensures IdentityKept() && ending.Report? && !ending.cleanupFailed ==> NothingLeft()
      ensures adrift.Some? ==> !(ending.Report? && ending.exit == 0)
      ensures OnlyOursRemoved()
      ensures host.Calm() ==> ending.Report? && ending.exit == 0
    {
      var ok := Body();
      var tally := Cleanup(!ok);
      EveryTurn(Due(!ok), turns, tally);
      if tally.escaped { return Traceback; }
      return Report(if ok && !tally.failed then 0 else 1, !ok, tally.failed, stage);
    }

  }

  /** A run id drawn at random names nothing on the host yet; from there every run is safe. */
  method RunAcceptance(me: Identity, host: Host) returns (runner: Runner, ending: Ending)
    requires host.NothingOfOurs(me) && host.removals == [] && host.journal.entries == []
    requires forall d :: d in host.directories ==> !Claims(me, host.directories[d])
    modifies host, host.journal
    ensures fresh(runner) && runner.me == me && runner.host == host
    ensures ending.Report? && ending.exit == 0 ==> runner.AllPassed()
    ensures ending.Report? ==> (ending.exit == 0 <==> !ending.failure && !ending.cleanupFailed)
    ensures !host.setting.Impersonated? && ending.Report? && !ending.cleanupFailed ==>
      runner.NothingLeft() && (runner.adrift.None? ==> host.NothingOfOurs(me))
    ensures runner.adrift.Some? ==> !(ending.Report? && ending.exit == 0)
    ensures runner.OnlyOursRemoved()
    ensures host.setting.Calm? ==> ending.Report? && ending.exit == 0
  {
    runner := new Runner(me, host);
    ending := runner.Run();
  }
}
