/**
 The host that the acceptance runner works on: tagged images, labelled containers and the directories
 under the cache. Every command may fail or be killed, with or without its effect, or end in an exception
 that the runner does not expect; other processes act in between. The setting says how far this goes.
 */
module AcceptanceHost {
  import opened Wrappers

  /**
   Calm: nothing fails and nobody interferes. Shared: others act, but do not take on this run's identity.
   Impersonated: others may even do that.
   */
  datatype Setting = Calm | Shared | Impersonated

  /** A command's reply, a refusal (AcceptanceError), or any other exception or a signal. */
  datatype Reply<+T> = Reply(value: T) | Refused | Escaped

  /** `docker image inspect`: what the runner looks at. */
  datatype Image = Image(id: string, tags: set<string>, run: Option<string>, source: Option<string>)

  /**
   resources.json. Malformed: refused when it is read. Unreadable: the JSON reader raises what nobody
   expects, as it does for a number of 5000 digits or for deep nesting.
   */
  datatype ResourceRecord = Malformed | Unreadable | ResourceRecord(runId: string, sessionId: string)

  /** A path under the cache; `runner` is the run_id in its runner.json, if there is one. */
  datatype Directory = Directory(isReal: bool, runner: Option<string>, resources: Option<ResourceRecord>)

  /** The digests of the two input manifests at this moment. */
  datatype Inputs = Inputs(build: HexDigest, proof: HexDigest)

  datatype ImageReply = NoSuchImage | InspectFailed | Found(image: Image)

  /** Who this run is: every resource of the run carries one of these. */
  datatype Identity = Identity(runId: string, tag: string, session: string)

  datatype Removal =
    | ImageRemoved(tag: string, image: Image)
    | ContainerRemoved(id: string, session: string)
    | DirectoryRemoved(path: string, directory: Directory)

  /** What the runner has looked at and is about to remove. */
  datatype Target = ImageAt(tag: string) | ContainerOf(id: string) | DirectoryAt(path: string)

  /** A command or a reading that went through, with what it was given and what it told. */
  datatype Command =
    | FindTools
    | Allocate(path: string)
    | ReadCommit
    | ReadBuildInputs(digest: HexDigest)
    | ReadProofInputs(digest: HexDigest)
    | SaveRecord(path: string, build: HexDigest, proof: HexDigest, imageId: Option<string>)
    | BuildImage(tag: string, source: string)
    | InspectImage(tag: string, image: Image)
    | RunTests(tested: string, path: string, returncode: int)
    | ReadReport(path: string)

  /**
   What the host was really asked to do, and how many commands ended in an exception that nobody expects. Only
   the host's own methods write it.
   */
  class Journal {
    var entries: seq<Command>
    var alarms: nat

    constructor ()
      ensures entries == [] && alarms == 0
    {
      entries, alarms := [], 0;
    }
  }

  predicate HexDigit(c: char) {
    '0' <= c <= '9' || 'a' <= c <= 'f'
  }

  /** `_HEX_ID` */
  predicate HexId(s: string) {
    12 <= |s| <= 64 && forall i :: 0 <= i < |s| ==> HexDigit(s[i])
  }

  /** `_IMAGE_ID` */
  predicate ImageId(s: string) {
    |s| == 71 && s[..7] == "sha256:" && forall i :: 7 <= i < 71 ==> HexDigit(s[i])
  }

  predicate HexText(s: string) {
    forall i :: 0 <= i < |s| ==> 0x30 <= s[i] as int <= 0x39 || 0x61 <= s[i] as int <= 0x66
  }

  /** The ids that docker prints: lower-case hexadecimal digits, 12 to 64 of them, or all 64 after the algorithm. */
  lemma IdsAre(s: string)
    ensures HexId(s) <==> 12 <= |s| <= 64 && HexText(s)
    ensures ImageId(s) <==> exists digest :: s == "sha256:" + digest && |digest| == 64 && HexText(digest)
  {
    if ImageId(s) {
      assert s == "sha256:" + s[7..] && HexText(s[7..]);
    }
    if digest :| s == "sha256:" + digest && |digest| == 64 && HexText(digest) {
      assert forall i :: 7 <= i < 71 ==> s[i] == digest[i - 7];
    }
  }

  /** One of the directory's two records names the run. */
  predicate Claims(me: Identity, d: Directory) {
    d.runner == Some(me.runId)
      || (d.resources.Some? && d.resources.value.ResourceRecord? && d.resources.value.runId == me.runId)
  }

  /** The harness leaves the record alone, loses it, garbles it, or writes the session it really used. */
  predicate Written(me: Identity, before: Option<ResourceRecord>, after: Option<ResourceRecord>) {
    after == before || after in {None, Some(Malformed), Some(Unreadable), Some(ResourceRecord(me.runId, me.session))}
  }

  // ---- what others leave alone when nobody takes on the run's identity ----

  predicate ImageKept(me: Identity, before: map<string, Image>, after: map<string, Image>, t: string)
    requires t in after
  {
    after[t].run == Some(me.runId) ==> t in before && before[t] == after[t]
  }

  predicate ContainerKept(me: Identity, before: map<string, string>, after: map<string, string>, c: string)
    requires c in after
  {
    after[c] == me.session ==> c in before && before[c] == after[c]
  }

  predicate DirectoryKept(me: Identity, before: map<string, Directory>, after: map<string, Directory>, d: string)
    requires d in after
  {
    Claims(me, after[d]) ==> d in before && before[d] == after[d]
  }

  /** `mkdtemp` finds a name that is not taken. */
  lemma {:induction false} SomeNameIsFree(taken: set<string>) returns (length: nat)
    ensures forall s :: s in taken ==> |s| < length
  {
    if taken == {} {
      length := 0;
    } else {
      var x :| x in taken;
      var rest := SomeNameIsFree(taken - {x});
      length := if |x| < rest then rest else |x| + 1;
      forall s | s in taken ensures |s| < length {
        if s != x { assert s in taken - {x}; }
      }
    }
  }

  class Host {
    const setting: Setting
    const journal: Journal
    var images: map<string, Image>        // by tag
    var containers: map<string, string>   // session label by container id
    var directories: map<string, Directory>
    var inputs: Inputs
    ghost var removals: seq<Removal>

    constructor (setting: Setting, images: map<string, Image>, containers: map<string, string>,
        directories: map<string, Directory>, inputs: Inputs)
      ensures this.setting == setting
      ensures this.images == images && this.containers == containers && this.directories == directories
      ensures this.inputs == inputs && removals == []
      ensures fresh(journal) && journal.entries == []
    {
      this.setting := setting;
      journal := new Journal();
      this.images, this.containers, this.directories, this.inputs := images, containers, directories, inputs;
      removals := [];
    }

    predicate Calm() {
      setting.Calm?
    }

    // ---- what belongs to the run ----

    ghost predicate NoImageOfOurs(me: Identity)
      reads this
    {
      forall t :: t in images ==> images[t].run != Some(me.runId)
    }

    ghost predicate NoContainerOfOurs(me: Identity)
      reads this
    {
      forall c :: c in containers ==> containers[c] != me.session
    }

    ghost predicate NoDirectoryOfOurs(me: Identity)
      reads this
    {
      forall d :: d in directories ==> directories[d].runner != Some(me.runId)
    }

    ghost predicate NothingOfOurs(me: Identity)
      reads this
    {
      NoImageOfOurs(me) && NoContainerOfOurs(me) && NoDirectoryOfOurs(me)
    }

    /** Nobody else tags, labels or records anything with this run's identity. */
    twostate predicate OnlyOthersActed(me: Identity)
      reads this
    {
      && (forall t :: t in images ==> ImageKept(me, old(images), images, t))
      && (forall c :: c in containers ==> ContainerKept(me, old(containers), containers, c))
      && (forall d :: d in directories ==> DirectoryKept(me, old(directories), directories, d))
    }

    /** Anything other processes do between two commands of the runner. */
    method Interfere(me: Identity)
      modifies this`images, this`containers, this`directories, this`inputs
      ensures !setting.Impersonated? ==> OnlyOthersActed(me)
      ensures Calm() ==> Undisturbed()
    {
      if Calm() { return; }
      var images': map<string, Image> := *;
      var containers': map<string, string> := *;
      var directories': map<string, Directory> := *;
      var inputs': Inputs := *;
      var loose := setting.Impersonated?;
      images := map t | t in images' && (loose || ImageKept(me, images, images', t)) :: images'[t];
      containers := map c | c in containers' && (loose || ContainerKept(me, containers, containers', c)) ::
        containers'[c];
      directories := map d | d in directories' && (loose || DirectoryKept(me, directories, directories', d)) ::
        directories'[d];
      inputs := inputs';
    }

    /**
     The same between looking at something and removing it. Others may take that very thing away, but in
     this window nobody puts another one in its place: under the run's own tag, under the id of a listed
     container, or at the path of the directory.
     */
    method InterfereElsewhere(me: Identity, target: Target)
      modifies this`images, this`containers, this`directories, this`inputs
      ensures !setting.Impersonated? ==> OnlyOthersActed(me)
      ensures Calm() ==> Undisturbed()
      ensures target.ImageAt? && target.tag in images ==>
        target.tag in old(images) && images[target.tag] == old(images)[target.tag]
      ensures target.ContainerOf? && target.id in containers ==>
        target.id in old(containers) && containers[target.id] == old(containers)[target.id]
      ensures target.DirectoryAt? && target.path in directories ==>
        target.path in old(directories) && directories[target.path] == old(directories)[target.path]
    {
      var images', containers', directories' := images, containers, directories;
      Interfere(me);
      match target
      case ImageAt(tag) =>
        images := if tag in images && tag in images' then images[tag := images'[tag]] else images - {tag};
      case ContainerOf(id) =>
        containers := if id in containers && id in containers' then containers[id := containers'[id]]
          else containers - {id};
      case DirectoryAt(path) =>
        directories := if path in directories && path in directories' then directories[path := directories'[path]]
                       else directories - {path};
    }

    twostate predicate Undisturbed()
      reads this
    {
      images == old(images) && containers == old(containers) && directories == old(directories) && inputs == old(inputs)
    }

    /** A command that changes nothing of ours: it works, or raises, times out or is signalled. */
    method Perform(command: Command) returns (ok: bool)
      requires command.FindTools? || command.ReadCommit? || command.SaveRecord? || command.ReadReport?
      modifies journal
      ensures journal.entries == if ok then old(journal.entries) + [command] else old(journal.entries)
      ensures Calm() ==> ok
    {
      ok := *;
      ok := ok || Calm();
      if ok { journal.entries := journal.entries + [command]; }
    }

    /** `_build_manifest`: the digest of the build's inputs as they are now. */
    method ReadBuildInputs() returns (digest: Option<HexDigest>)
      modifies journal
      ensures digest.Some? ==> digest.value == inputs.build
      ensures journal.entries ==
        if digest.Some? then old(journal.entries) + [Command.ReadBuildInputs(inputs.build)] else old(journal.entries)
      ensures Calm() ==> digest.Some?
    {
      var failed: bool := *;
      if failed && !Calm() { return None; }
      journal.entries := journal.entries + [Command.ReadBuildInputs(inputs.build)];
      return Some(inputs.build);
    }

    /** `_proof_manifest` */
    method ReadProofInputs() returns (digest: Option<HexDigest>)
      modifies journal
      ensures digest.Some? ==> digest.value == inputs.proof
      ensures journal.entries ==
        if digest.Some? then old(journal.entries) + [Command.ReadProofInputs(inputs.proof)] else old(journal.entries)
      ensures Calm() ==> digest.Some?
    {
      var failed: bool := *;
      if failed && !Calm() { return None; }
      journal.entries := journal.entries + [Command.ReadProofInputs(inputs.proof)];
      return Some(inputs.proof);
    }

    // ---- docker ----

    /** A build that fails or is killed may still have tagged the image. */
    method Build(me: Identity, source: string) returns (ok: bool)
      modifies this, journal
      ensures journal.entries ==
        if ok then old(journal.entries) + [BuildImage(me.tag, source)] else old(journal.entries)
      ensures containers == old(containers) && directories == old(directories) && removals == old(removals)
      ensures forall t :: t in images && images[t].run == Some(me.runId) ==>
        (t == me.tag && images[t].source == Some(source)) || (t in old(images) && old(images)[t] == images[t])
      ensures ok ==> me.tag in images
      ensures Calm() ==> ok && ImageId(images[me.tag].id)
      ensures Calm() ==> images[me.tag] == Image(images[me.tag].id, {me.tag}, Some(me.runId), Some(source))
      ensures Calm() ==> inputs == old(inputs)
    {
      ok := *;
      ok := ok || Calm();
      var tagged: bool := *;
      if ok || tagged {
        var id: string := *;
        if Calm() {
          assert ImageId("sha256:" + seq(64, _ => '0'));
          id :| ImageId(id);
        }
        images := images[me.tag := Image(id, {me.tag}, Some(me.runId), Some(source))];
      }
      if ok { journal.entries := journal.entries + [BuildImage(me.tag, source)]; }
    }

    /** The inspection during the stages. */
    method ExamineImage(tag: string) returns (reply: Reply<ImageReply>)
      modifies journal
      ensures reply == Reply(NoSuchImage) ==> tag !in images
      ensures reply.Reply? && reply.value.Found? ==> tag in images && images[tag] == reply.value.image
      ensures journal.entries ==
        if reply.Reply? && reply.value.Found? then old(journal.entries) + [Command.InspectImage(tag, reply.value.image)]
        else old(journal.entries)
      ensures Calm() ==> reply == Reply(if tag in images then Found(images[tag]) else NoSuchImage)
    {
      reply := InspectImage(tag);
      if reply.Reply? && reply.value.Found? {
        journal.entries := journal.entries + [Command.InspectImage(tag, reply.value.image)];
      }
    }

    method InspectImage(tag: string) returns (reply: Reply<ImageReply>)
      modifies journal`alarms
      ensures journal.alarms == old(journal.alarms) + (if reply.Escaped? then 1 else 0)
      ensures reply == Reply(NoSuchImage) ==> tag !in images
      ensures reply.Reply? && reply.value.Found? ==> tag in images && images[tag] == reply.value.image
      ensures Calm() ==> reply == Reply(if tag in images then Found(images[tag]) else NoSuchImage)
    {
      var truth := Reply(if tag in images then Found(images[tag]) else NoSuchImage);
      reply :| reply in {truth, Reply(InspectFailed), Refused, Escaped};
      if Calm() { reply := truth; }
      if reply.Escaped? { journal.alarms := journal.alarms + 1; }
    }

    /** `docker image rm -f`: whatever it says, it may or may not have removed the tag. */
    method RemoveImage(tag: string) returns (reply: Reply<()>)
      modifies this`images, this`removals, journal`alarms
      ensures journal.alarms == old(journal.alarms) + (if reply.Escaped? then 1 else 0)
      ensures images == old(images) || images == old(images) - {tag}
      ensures reply.Reply? ==> tag !in images
      ensures Calm() && tag in old(images) ==> reply.Reply?
      ensures removals == if images == old(images) then old(removals)
        else old(removals) + [ImageRemoved(tag, old(images)[tag])]
    {
      var effect: bool := *;
      if tag in images && (effect || Calm()) {
        removals := removals + [ImageRemoved(tag, images[tag])];
        images := images - {tag};
      }
      reply :| reply in {Reply(()), Refused, Escaped} && (reply.Reply? ==> tag !in images);
      if Calm() && tag !in images { reply := Reply(()); }
      if reply.Escaped? { journal.alarms := journal.alarms + 1; }
    }

    method ListContainers(session: string) returns (ids: Reply<seq<string>>)
      modifies journal`alarms
      ensures journal.alarms == old(journal.alarms) + (if ids.Escaped? then 1 else 0)
      ensures Calm() ==> ids.Reply?
      ensures ids.Reply? ==> forall c :: c in ids.value <==> c in containers && containers[c] == session
      ensures ids.Reply? ==> forall i, j :: 0 <= i < j < |ids.value| ==> ids.value[i] != ids.value[j]
    {
      var failed: bool := *;
      if failed && !Calm() {
        ids :| ids in {Refused, Escaped};
        if ids.Escaped? { journal.alarms := journal.alarms + 1; }
        return;
      }
      var found: seq<string> := [];
      var todo := set c | c in containers && containers[c] == session;
      while todo != {}
        invariant forall c :: c in todo ==> c in containers && containers[c] == session
        invariant forall c :: c in found ==> c in containers && containers[c] == session && c !in todo
        invariant forall c :: c in containers && containers[c] == session ==> c in todo || c in found
        invariant forall i, j :: 0 <= i < j < |found| ==> found[i] != found[j]
      {
        var c :| c in todo;
        todo := todo - {c};
        found := found + [c];
      }
      return Reply(found);
    }

    method InspectContainer(id: string) returns (session: Reply<string>)
      modifies journal`alarms
      ensures journal.alarms == old(journal.alarms) + (if session.Escaped? then 1 else 0)
      ensures session.Reply? ==> id in containers && containers[id] == session.value
      ensures Calm() && id in containers ==> session.Reply?
      ensures Calm() ==> !session.Escaped?
    {
      var truth := if id in containers then Reply(containers[id]) else Refused;
      session :| session in {truth, Refused, Escaped};
      if Calm() { session := truth; }
      if session.Escaped? { journal.alarms := journal.alarms + 1; }
    }

    method RemoveContainer(id: string) returns (reply: Reply<()>)
      modifies this`containers, this`removals, journal`alarms
      ensures journal.alarms == old(journal.alarms) + (if reply.Escaped? then 1 else 0)
      ensures containers == old(containers) || containers == old(containers) - {id}
      ensures reply.Reply? ==> id !in containers
      ensures Calm() && id in old(containers) ==> reply.Reply?
      ensures removals ==
        if containers == old(containers) then old(removals)
          else old(removals) + [ContainerRemoved(id, old(containers)[id])]
    {
      var effect: bool := *;
      if id in containers && (effect || Calm()) {
        removals := removals + [ContainerRemoved(id, containers[id])];
        containers := containers - {id};
      }
      reply :| reply in {Reply(()), Refused, Escaped} && (reply.Reply? ==> id !in containers);
      if Calm() && id !in containers { reply := Reply(()); }
      if reply.Escaped? { journal.alarms := journal.alarms + 1; }
    }

    /** The harness starts containers under its session and may record that session before it ends. */
    method Harness(me: Identity, image: string, owned: string) returns (returncode: Option<int>)
      modifies this`containers, this`directories, journal
      ensures journal.entries ==
        if returncode.Some? then old(journal.entries) + [RunTests(image, owned, returncode.value)]
        else old(journal.entries)
      ensures forall c :: c in old(containers) ==> c in containers && containers[c] == old(containers)[c]
      ensures forall c :: c in containers && c !in old(containers) ==> containers[c] == me.session
      ensures owned !in old(directories) ==> directories == old(directories)
      ensures owned in old(directories) ==>
        exists written :: Written(me, old(directories)[owned].resources, written)
          && directories == old(directories)[owned := old(directories)[owned].(resources := written)]
      ensures Calm() ==> returncode == Some(0)
      ensures Calm() ==> forall c :: c in containers && c !in old(containers) ==> HexId(c)
      ensures Calm() && owned in old(directories) ==>
        directories[owned].resources == Some(ResourceRecord(me.runId, me.session))
    {
      returncode := *;
      var started: set<string> := *;
      if Calm() {
        returncode := Some(0);
        started := set c | c in started && HexId(c);
      }
      containers := map c | c in containers.Keys + started :: if c in containers then containers[c] else me.session;
      if owned in directories {
        var choice: int := *;
        var written := if Calm() then Some(ResourceRecord(me.runId, me.session))
                       else if choice == 0 then directories[owned].resources
                       else if choice == 1 then None
                       else if choice == 2 then Some(Malformed)
                       else if choice == 3 then Some(Unreadable)
                       else Some(ResourceRecord(me.runId, me.session));
        assert Written(me, directories[owned].resources, written);
        directories := directories[owned := directories[owned].(resources := written)];
      }
      if returncode.Some? { journal.entries := journal.entries + [RunTests(image, owned, returncode.value)]; }
    }

    // ---- the file system ----

    /**
     `_allocate_owned_directory`. A refusal may leave an unmarked directory behind; a signal may leave one
     that already carries the run's record, though nobody will know its path.
     */
    method AllocateDirectory(me: Identity) returns (path: Reply<string>, ghost left: Option<string>)
      modifies this`directories, journal
      ensures journal.entries ==
        if path.Reply? then old(journal.entries) + [Allocate(path.value)] else old(journal.entries)
      ensures path.Reply? ==>
        path.value !in old(directories)
          && directories == old(directories)[path.value := Directory(true, Some(me.runId), None)]
      ensures path.Reply? ==> left.None?
      ensures !path.Reply? && left.None? ==> directories == old(directories)
      ensures !path.Reply? && left.Some? ==> left.value !in old(directories) && LeftBehind(left.value)
      ensures path.Refused? && left.Some? ==> directories[left.value].runner.None?
      ensures left.Some? ==> directories[left.value].runner in {None, Some(me.runId)}
      ensures Calm() ==> path.Reply?
    {
      left := None;
      path :| path in {Refused, Escaped};
      var name: string := *;
      if Calm() {
        ghost var length := SomeNameIsFree(directories.Keys);
        assert seq(length, _ => 'a') !in directories;
        name :| name !in directories;
      }
      var made: bool := *;
      if name in directories || !(made || Calm()) { return; }
      var finished: bool := *;
      if finished || Calm() {
        directories := directories[name := Directory(true, Some(me.runId), None)];
        journal.entries := journal.entries + [Allocate(name)];
        return Reply(name), None;
      }
      var marked: bool := *;
      directories := directories[name :=
        Directory(true, if marked && path.Escaped? then Some(me.runId) else None, None)];
      left := Some(name);
    }

    twostate predicate LeftBehind(path: string)
      reads this
    {
      path in directories && directories == old(directories)[path := Directory(true, directories[path].runner, None)]
    }

    /** Looking at a path: nothing there, or a directory as it is now. */
    method LookAt(path: string) returns (seen: Reply<Option<Directory>>)
      modifies journal`alarms
      ensures journal.alarms == old(journal.alarms) + (if seen.Escaped? then 1 else 0)
      ensures seen.Reply? ==> seen.value == if path in directories then Some(directories[path]) else None
      ensures Calm() ==> seen.Reply?
    {
      var truth := Reply(if path in directories then Some(directories[path]) else None);
      seen :| seen in {truth, Refused, Escaped};
      if Calm() { seen := truth; }
      if seen.Escaped? { journal.alarms := journal.alarms + 1; }
    }

    /** A tree removal that ends part way may already have lost runner.json. */
    method RemoveTree(path: string) returns (reply: Reply<()>)
      modifies this`directories, this`removals, journal`alarms
      ensures journal.alarms == old(journal.alarms) + (if reply.Escaped? then 1 else 0)
      ensures reply.Reply? ==> directories == old(directories) - {path} && path in old(directories)
      ensures Calm() && path in old(directories) ==> reply.Reply?
      ensures !reply.Reply? && path !in old(directories) ==> directories == old(directories)
      ensures !reply.Reply? && path in old(directories) ==> PartlyRemoved(path)
      ensures removals ==
        if path in old(directories) then old(removals) + [DirectoryRemoved(path, old(directories)[path])]
          else old(removals)
    {
      reply :| reply in {Refused, Escaped};
      if path !in directories {
        if reply.Escaped? { journal.alarms := journal.alarms + 1; }
        return;
      }
      removals := removals + [DirectoryRemoved(path, directories[path])];
      var done: bool := *;
      if done || Calm() {
        directories := directories - {path};
        return Reply(());
      }
      var runnerLeft: bool := *;
      var resourcesLeft: bool := *;
      var was := directories[path];
      var left := was.(runner := if runnerLeft then was.runner else None,
                       resources := if resourcesLeft then was.resources else None);
      directories := directories[path := left];
      if reply.Escaped? { journal.alarms := journal.alarms + 1; }
    }

    /** `json.loads` of a resources.json. */
    method Decode(record: ResourceRecord) returns (reply: Reply<ResourceRecord>)
      modifies journal`alarms
      ensures journal.alarms == old(journal.alarms) + (if reply.Escaped? then 1 else 0)
      ensures reply == if record.Unreadable? then Escaped else if record.Malformed? then Refused else Reply(record)
    {
      if record.Unreadable? { journal.alarms := journal.alarms + 1; }
      return if record.Unreadable? then Escaped else if record.Malformed? then Refused else Reply(record);
    }

    /** A signal may arrive while the runner works on its own. */
    method Signalled() returns (signal: bool)
      modifies journal`alarms
      ensures journal.alarms == old(journal.alarms) + (if signal then 1 else 0)
      ensures Calm() ==> !signal
    {
      signal := *;
      signal := signal && !Calm();
      if signal { journal.alarms := journal.alarms + 1; }
    }

    twostate predicate PartlyRemoved(path: string)
      requires path in old(directories)
      reads this
    {
      && path in directories && directories == old(directories)[path := directories[path]]
      && directories[path].runner in {None, old(directories)[path].runner}
      && directories[path].resources in {None, old(directories)[path].resources}
    }
  }
}
