/**
 A document kept alive while its editor comes and goes (document_sessions.ts). Saves and
 checkpoints run one after another; between any two of their steps the document may be
 changed, detached from its editor or attached to another.
 */
module RetainedDocument {
  import opened Text

  /** A document value of the editor: version tells two values apart even where their contents agree. */
  datatype Doc = Doc(version: nat, content: string)

  /** Markdown text of a content, and the checksum of a text. */
  datatype Env = Env(stringify: string -> string, checksum: string -> string)

  datatype Task = Save | Checkpoint | Release

  /** How far the head of the queue has come. */
  datatype Phase =
    | Waiting
    | Preparing(doc: Doc, text: string)
    | Writing(doc: Doc, text: string, named: string)
    | Journaling

  datatype Session = Session(
    state: Doc,
    host: Option<Doc>,
    checksum: string,
    released: bool,
    queue: seq<Task>,
    phase: Phase,
    dirty: bool,
    written: Option<string>,
    versions: nat)

  datatype WriteResult = Written | Conflict | Failed

  datatype Step =
    | Dispatch(changed: Option<string>)
    | Edit(content: string)
    | Detach
    | Attach(disposed: bool, restored: bool)
    | Call(task: Task)
    | Begin(inVault: bool, ready: bool, journaled: bool)
    | Prepared(ok: bool)
    | WriteDone(result: WriteResult)

  /** The mounted editor's document, or the retained one. */
  function Current(s: Session): Doc {
    if s.host.Some? then s.host.value else s.state
  }

  function SetCurrent(s: Session, content: string): Session {
    var doc := Doc(s.versions, content);
    (if s.host.Some? then s.(host := Some(doc)) else s.(state := doc)).(versions := s.versions + 1)
  }

  /** A document that differs in content marks the tab as having unsaved changes. */
  function DoDispatch(s: Session, changed: Option<string>): Session {
    if s.released || changed.None? then s
    else SetCurrent(s, changed.value).(dirty := s.dirty || changed.value != Current(s).content)
  }

  /** The user types in the mounted editor, which marks the tab itself. */
  function DoEdit(s: Session, content: string): Session {
    if s.host.None? then s else SetCurrent(s, content).(dirty := s.dirty || content != Current(s).content)
  }

  function DoDetach(s: Session): Session {
    s.(state := Current(s), host := None)
  }

  /** The new editor gets a document rebuilt from the old one: equal content, another value. */
  function DoAttach(s: Session, disposed: bool, restored: bool): Session {
    if s.released || disposed then s
    else
      var doc := Doc(s.versions, Current(s).content);
      s.(state := doc, host := if restored then Some(doc) else None, versions := s.versions + 1)
  }

  function Finish(s: Session): Session
    requires s.queue != []
  {
    s.(queue := s.queue[1..], phase := Waiting)
  }

  /** One round of the save loop takes the document as it is now. */
  function Capture(env: Env, s: Session): Session {
    s.(phase := Preparing(Current(s), env.stringify(Current(s).content)))
  }

  function DoBegin(env: Env, s: Session, inVault: bool, ready: bool, journaled: bool): Session {
    if s.queue == [] || !s.phase.Waiting? then s
    else
      match s.queue[0]
      case Save => if s.released || !inVault || !ready then Finish(s) else Capture(env, s)
      case Checkpoint => if s.released || !ready || !journaled then Finish(s) else s.(phase := Journaling)
      case Release => Finish(s).(released := true, host := None)
  }

  function DoPrepared(s: Session, ok: bool): Session {
    if s.queue == [] then s
    else
      match s.phase
      case Preparing(doc, text) => if ok then s.(phase := Writing(doc, text, s.checksum)) else Finish(s)
      case Journaling => Finish(s)
      case _ => s
  }

  function DoWriteDone(env: Env, s: Session, result: WriteResult): Session {
    if s.queue == [] || !s.phase.Writing? then s
    else if !result.Written? then Finish(s)
    else
      var saved := s.(checksum := env.checksum(s.phase.text), written := Some(s.phase.text));
      if Current(saved).version != s.phase.doc.version then Capture(env, saved) else Finish(saved).(dirty := false)
  }

  function Next(env: Env, s: Session, step: Step): Session {
    match step
    case Dispatch(changed) => DoDispatch(s, changed)
    case Edit(content) => DoEdit(s, content)
    case Detach => DoDetach(s)
    case Attach(disposed, restored) => DoAttach(s, disposed, restored)
    case Call(task) => s.(queue := s.queue + [task])
    case Begin(inVault, ready, journaled) => DoBegin(env, s, inVault, ready, journaled)
    case Prepared(ok) => DoPrepared(s, ok)
    case WriteDone(result) => DoWriteDone(env, s, result)
  }

  function Run(env: Env, s: Session, steps: seq<Step>): Session
    decreases |steps|
  {
    if steps == [] then s else Next(env, Run(env, s, steps[..|steps| - 1]), steps[|steps| - 1])
  }

  /** The session as retainDocument makes it from a mounted editor. */
  function Initial(content: string, checksum: string, dirty: bool): Session {
    Session(Doc(0, content), Some(Doc(0, content)), checksum, false, [], Waiting, dirty, None, 1)
  }

  // ----- What every run keeps

  /** One version names one value. */
  predicate Agree(a: Doc, b: Doc) {
    a.version == b.version ==> a == b
  }

  predicate Capturing(s: Session) {
    s.phase.Preparing? || s.phase.Writing?
  }

  predicate VersionsOk(s: Session) {
    && s.state.version < s.versions && Current(s).version < s.versions && Agree(s.state, Current(s))
    && (Capturing(s) ==>
          s.phase.doc.version < s.versions && Agree(s.phase.doc, s.state) && Agree(s.phase.doc, Current(s)))
  }

  predicate PhaseOk(env: Env, s: Session) {
    match s.phase
    case Waiting => true
    case Journaling => s.queue != [] && s.queue[0] == Checkpoint
    case _ =>
      && s.queue != [] && s.queue[0] == Save && !s.released
      && s.phase.text == env.stringify(s.phase.doc.content)
      && (!s.dirty ==> s.phase.doc.content == Current(s).content)
      && (s.phase.Writing? ==> s.phase.named == s.checksum)
  }

  /** The session shows what was last written, or what it was opened with if nothing was. */
  predicate ShowsSaved(env: Env, s: Session, content: string) {
    if s.written.Some? then s.written.value == env.stringify(Current(s).content) else Current(s).content == content
  }

  /** A clean tab shows what was saved; while nothing was, the retained document is the first one too. */
  predicate CleanOk(env: Env, s: Session, content: string) {
    !s.released && !s.dirty ==> ShowsSaved(env, s, content) && (s.written.None? ==> s.state.content == content)
  }

  predicate ChecksumOk(env: Env, s: Session, checksum: string) {
    s.checksum == if s.written.Some? then env.checksum(s.written.value) else checksum
  }

  predicate Inv(env: Env, s: Session, content: string, checksum: string) {
    && (s.released ==> Retired(s))
    && VersionsOk(s) && PhaseOk(env, s) && CleanOk(env, s, content) && ChecksumOk(env, s, checksum)
  }

  lemma DispatchKeeps(env: Env, s: Session, changed: Option<string>, content: string, checksum: string)
    requires Inv(env, s, content, checksum)
    ensures Inv(env, DoDispatch(s, changed), content, checksum)
  {
  }

  lemma EditKeeps(env: Env, s: Session, text: string, content: string, checksum: string)
    requires Inv(env, s, content, checksum)
    ensures Inv(env, DoEdit(s, text), content, checksum)
  {
  }

  lemma DetachKeeps(env: Env, s: Session, content: string, checksum: string)
    requires Inv(env, s, content, checksum)
    ensures Inv(env, DoDetach(s), content, checksum)
  {
  }

  lemma AttachKeeps(env: Env, s: Session, disposed: bool, restored: bool, content: string, checksum: string)
    requires Inv(env, s, content, checksum)
    ensures Inv(env, DoAttach(s, disposed, restored), content, checksum)
  {
  }

  lemma BeginKeeps(env: Env, s: Session, inVault: bool, ready: bool, journaled: bool, content: string, checksum: string)
    requires Inv(env, s, content, checksum)
    ensures Inv(env, DoBegin(env, s, inVault, ready, journaled), content, checksum)
  {
  }

  lemma PreparedKeeps(env: Env, s: Session, ok: bool, content: string, checksum: string)
    requires Inv(env, s, content, checksum)
    ensures Inv(env, DoPrepared(s, ok), content, checksum)
  {
  }

  lemma WriteDoneKeeps(env: Env, s: Session, result: WriteResult, content: string, checksum: string)
    requires Inv(env, s, content, checksum)
    ensures Inv(env, DoWriteDone(env, s, result), content, checksum)
  {
  }

  lemma NextKeeps(env: Env, s: Session, step: Step, content: string, checksum: string)
    requires Inv(env, s, content, checksum)
    ensures Inv(env, Next(env, s, step), content, checksum)
  {
    hide DoDispatch, DoEdit, DoDetach, DoAttach, DoBegin, DoPrepared, DoWriteDone;
    match step
    case Dispatch(changed) => DispatchKeeps(env, s, changed, content, checksum);
    case Edit(text) => EditKeeps(env, s, text, content, checksum);
    case Detach => DetachKeeps(env, s, content, checksum);
    case Attach(disposed, restored) => AttachKeeps(env, s, disposed, restored, content, checksum);
    case Call(_) =>
    case Begin(inVault, ready, journaled) => BeginKeeps(env, s, inVault, ready, journaled, content, checksum);
    case Prepared(ok) => PreparedKeeps(env, s, ok, content, checksum);
    case WriteDone(result) => WriteDoneKeeps(env, s, result, content, checksum);
  }

  lemma {:induction false} RunKeeps(env: Env, content: string, checksum: string, dirty: bool, steps: seq<Step>)
    ensures Inv(env, Run(env, Initial(content, checksum, dirty), steps), content, checksum)
    decreases |steps|
  {
    hide Next;
    if steps != [] {
      var n := |steps| - 1;
      RunKeeps(env, content, checksum, dirty, steps[..n]);
      NextKeeps(env, Run(env, Initial(content, checksum, dirty), steps[..n]), steps[n], content, checksum);
    }
  }

  /** In every run, a clean tab's document is the one last written, or still the one first opened. */
  lemma CleanMeansSaved(env: Env, content: string, checksum: string, dirty: bool, steps: seq<Step>)
    ensures
      var s := Run(env, Initial(content, checksum, dirty), steps);
      !s.released && !s.dirty ==> ShowsSaved(env, s, content)
  {
    RunKeeps(env, content, checksum, dirty, steps);
  }

  /** Only a write that succeeded and is of the current document marks the tab clean. */
  lemma OnlyASaveCleans(env: Env, content: string, checksum: string, dirty: bool, steps: seq<Step>, step: Step)
    requires Run(env, Initial(content, checksum, dirty), steps).dirty
    ensures
      var s := Run(env, Initial(content, checksum, dirty), steps);
      var t := Next(env, s, step);
      !t.dirty ==>
        && step == WriteDone(Written) && Current(t) == Current(s)
        && t.written == Some(env.stringify(Current(t).content)) && t.checksum == env.checksum(t.written.value)
  {
    RunKeeps(env, content, checksum, dirty, steps);
  }

  /** A change of content through dispatch, or in the mounted editor, marks the tab. */
  lemma ChangesMarkDirty(env: Env, s: Session, step: Step)
    requires Current(Next(env, s, step)).content != Current(s).content && !Next(env, s, step).released
    ensures Next(env, s, step).dirty
  {
  }

  /** The held checksum is that of the last successful write, and it is what the write under way names. */
  lemma ChecksumIsOfLastWrite(env: Env, content: string, checksum: string, dirty: bool, steps: seq<Step>)
    ensures
      var s := Run(env, Initial(content, checksum, dirty), steps);
      && s.checksum == (if s.written.Some? then env.checksum(s.written.value) else checksum)
      && (s.phase.Writing? ==> s.phase.named == s.checksum)
  {
    RunKeeps(env, content, checksum, dirty, steps);
  }

  /** No editor, and no save under way. */
  predicate Retired(s: Session) {
    s.released && s.host.None? && !Capturing(s)
  }

  lemma ReleasedStays(env: Env, t: Session, step: Step)
    requires Retired(t)
    ensures
      var u := Next(env, t, step);
      && Retired(u) && Current(u) == Current(t)
      && u.written == t.written && u.checksum == t.checksum && u.dirty == t.dirty
  {
  }

  lemma {:induction false} RetiredStays(env: Env, s: Session, more: seq<Step>)
    requires Retired(s)
    ensures
      var t := Run(env, s, more);
      && Retired(t) && Current(t) == Current(s)
      && t.written == s.written && t.checksum == s.checksum && t.dirty == s.dirty
    decreases |more|
  {
    hide Next;
    if more != [] {
      RetiredStays(env, s, more[..|more| - 1]);
      ReleasedStays(env, Run(env, s, more[..|more| - 1]), more[|more| - 1]);
    }
  }

  /** A released session writes nothing more, and its document stays as it is. */
  lemma NothingAfterRelease(
      env: Env, content: string, checksum: string, dirty: bool, steps: seq<Step>, more: seq<Step>)
    requires Run(env, Initial(content, checksum, dirty), steps).released
    ensures
      var s := Run(env, Initial(content, checksum, dirty), steps);
      var t := Run(env, s, more);
      && Retired(t) && Current(t) == Current(s)
      && t.written == s.written && t.checksum == s.checksum && t.dirty == s.dirty
  {
    RunKeeps(env, content, checksum, dirty, steps);
    RetiredStays(env, Run(env, Initial(content, checksum, dirty), steps), more);
  }

  // ----- What releasing does to the law about clean tabs

  /** The queue is about to release the session. */
  predicate Releasing(s: Session) {
    !s.released && s.phase.Waiting? && s.queue != [] && s.queue[0] == Release
  }

  /** Releasing drops the editor without taking its document over, so the content stays exactly when the retained
      one agrees. */
  lemma ReleaseKeepsContent(env: Env, s: Session, inVault: bool, ready: bool, journaled: bool)
    requires Releasing(s)
    ensures
      var t := Next(env, s, Begin(inVault, ready, journaled));
      Current(t).content == Current(s).content <==> s.host.None? || s.host.value.content == s.state.content
  {
  }

  /**
   A session released with a clean tab goes on showing what was saved, in every continuation, exactly
   when the retained document and the mounted one have the same text at that moment.
   */
  lemma ReleasedShowsSavedExactly(
      env: Env, content: string, checksum: string, dirty: bool, steps: seq<Step>,
      inVault: bool, ready: bool, journaled: bool, more: seq<Step>)
    requires var s := Run(env, Initial(content, checksum, dirty), steps); Releasing(s) && !s.dirty
    ensures
      var s := Run(env, Initial(content, checksum, dirty), steps);
      var t := Run(env, Next(env, s, Begin(inVault, ready, journaled)), more);
      && t.released && !t.dirty
      && (ShowsSaved(env, t, content) <==> env.stringify(s.state.content) == env.stringify(Current(s).content))
  {
    RunKeeps(env, content, checksum, dirty, steps);
    var s := Run(env, Initial(content, checksum, dirty), steps);
    var released := Next(env, s, Begin(inVault, ready, journaled));
    hide Run;
    assert Retired(released) && Current(released) == s.state && released.written == s.written && !released.dirty;
    RetiredStays(env, released, more);
  }

  lemma RunOne(env: Env, s: Session, steps: seq<Step>, step: Step)
    ensures Run(env, s, steps + [step]) == Next(env, Run(env, s, steps), step)
  {
    hide Next;
    assert (steps + [step])[..|steps|] == steps;
  }

  lemma RunFour(env: Env, s: Session, a: Step, b: Step, c: Step, d: Step)
    ensures Run(env, s, [a, b, c, d]) == Next(env, Next(env, Next(env, Next(env, s, a), b), c), d)
  {
    hide Next;
    assert Run(env, s, []) == s;
    hide Run;
    RunOne(env, s, [], a);
    RunOne(env, s, [a], b);
    RunOne(env, s, [a, b], c);
    RunOne(env, s, [a, b, c], d);
    assert [] + [a] == [a] && [a] + [b] == [a, b] && [a, b] + [c] == [a, b, c] && [a, b, c] + [d] == [a, b, c, d];
  }

  /** From here the run saves the edit; the retained document is still the one from before it. */
  lemma EditBeforeSave(env: Env, before: string, edited: string, checksum: string)
    ensures
      var steps := [Edit(edited), Call(Save), Call(Release), Begin(true, true, true)];
      var s := Run(env, Initial(before, checksum, false), steps);
      && s.state == Doc(0, before) && s.host == Some(Doc(1, edited)) && s.queue == [Save, Release] && !s.released
      && s.phase == Preparing(Doc(1, edited), env.stringify(edited))
  {
    RunFour(env, Initial(before, checksum, false), Edit(edited), Call(Save), Call(Release), Begin(true, true, true));
    hide Run;
    assert [] + [Save] == [Save] && [Save] + [Release] == [Save, Release];
  }

  /** Edited in its editor, saved and then released, a session shows the document from before the edit under a clean
      tab. */
  lemma ReleaseShowsStale(env: Env, before: string, edited: string, checksum: string)
    requires env.stringify(before) != env.stringify(edited)
    ensures
      var steps := [Edit(edited), Call(Save), Call(Release), Begin(true, true, true)]
                   + [Prepared(true)] + [WriteDone(Written)] + [Begin(true, true, true)];
      var s := Run(env, Initial(before, checksum, false), steps);
      && s.released && !s.dirty && s.written == Some(env.stringify(edited))
      && Current(s).content == before && !ShowsSaved(env, s, before)
  {
    var s0 := Initial(before, checksum, false);
    var edit := [Edit(edited), Call(Save), Call(Release), Begin(true, true, true)];
    EditBeforeSave(env, before, edited, checksum);
    hide Run;
    RunOne(env, s0, edit, Prepared(true));
    RunOne(env, s0, edit + [Prepared(true)], WriteDone(Written));
    RunOne(env, s0, edit + [Prepared(true)] + [WriteDone(Written)], Begin(true, true, true));
  }

  /** A round of the save loop that nothing disturbs ends the save with a clean tab. */
  lemma QuietSaveFinishes(env: Env, content: string, checksum: string, dirty: bool, steps: seq<Step>)
    requires
      var s := Run(env, Initial(content, checksum, dirty), steps);
      s.phase.Preparing? && s.phase.doc == Current(s)
    ensures
      var s := Run(env, Initial(content, checksum, dirty), steps);
      var t := Next(env, Next(env, s, Prepared(true)), WriteDone(Written));
      && t.phase.Waiting? && t.queue == s.queue[1..] && !t.dirty
      && t.written == Some(env.stringify(Current(s).content)) && Current(t) == Current(s)
  {
    RunKeeps(env, content, checksum, dirty, steps);
  }

  // ----- The class, with the save loop cut at its awaits

  class DocumentSession {
    const env: Env
    var state: Doc
    var host: Option<Doc>
    var checksum: string
    var released: bool
    var queue: seq<Task>
    var phase: Phase
    var dirty: bool
    ghost var written: Option<string>
    var versions: nat

    constructor (env: Env, content: string, checksum: string, dirty: bool)
      ensures this.env == env && View() == Initial(content, checksum, dirty)
    {
      this.env, this.checksum, this.dirty := env, checksum, dirty;
      state, host, versions := Doc(0, content), Some(Doc(0, content)), 1;
      released, queue, phase, written := false, [], Waiting, None;
    }

    ghost function View(): Session
      reads this
    {
      Session(state, host, checksum, released, queue, phase, dirty, written, versions)
    }

    function GetState(): (doc: Doc)
      reads this
      ensures doc == Current(View())
    {
      if host.Some? then host.value else state
    }

    method Dispatch(changed: Option<string>) returns (ok: bool)
      modifies this
      ensures ok == !old(released)
      ensures View() == DoDispatch(old(View()), changed)
    {
      if released {
        return false;
      }
      var previous := GetState();
      if changed.Some? {
        var doc := Doc(versions, changed.value);
        versions := versions + 1;
        if host.Some? {
          host := Some(doc);
        } else {
          state := doc;
        }
      }
      if previous.content != GetState().content {
        dirty := true;
      }
      ok := true;
    }

    method DetachEditor()
      modifies this
      ensures View() == DoDetach(old(View()))
    {
      state := GetState();
      host := None;
    }

    /** restored is false where the editor refuses the restored document. */
    method AttachEditor(disposed: bool, restored: bool)
      modifies this
      ensures View() == DoAttach(old(View()), disposed, restored)
    {
      if released || disposed {
        return;
      }
      state := Doc(versions, GetState().content);
      versions := versions + 1;
      host := if restored then Some(state) else None;
    }

    /** save, checkpoint and release queue up behind whatever was asked for before. */
    method Ask(task: Task)
      modifies this
      ensures View() == Next(env, old(View()), Call(task))
    {
      queue := queue + [task];
    }

    method CaptureRound()
      modifies this
      ensures View() == Capture(env, old(View()))
    {
      phase := Preparing(GetState(), env.stringify(GetState().content));
    }

    /** The head of the queue starts. */
    method BeginTask(inVault: bool, ready: bool, journaled: bool)
      requires queue != [] && phase.Waiting?
      modifies this
      ensures View() == DoBegin(env, old(View()), inVault, ready, journaled)
    {
      match queue[0]
      case Save =>
        if released || !inVault || !ready {
          queue := queue[1..];
        } else {
          CaptureRound();
        }
      case Checkpoint =>
        if released || !ready || !journaled {
          queue := queue[1..];
        } else {
          phase := Journaling;
        }
      case Release =>
        released, host, queue := true, None, queue[1..];
    }

    /** The journal hook has returned or thrown; the write names the checksum held now. */
    method AfterBeforeSave(ok: bool)
      requires queue != [] && phase.Preparing?
      modifies this
      ensures View() == DoPrepared(old(View()), ok)
    {
      if ok {
        phase := Writing(phase.doc, phase.text, checksum);
      } else {
        phase, queue := Waiting, queue[1..];
      }
    }

    /** The write has returned: go round again if the document is another by now. */
    method AfterWrite(result: WriteResult)
      requires queue != [] && phase.Writing?
      modifies this
      ensures View() == DoWriteDone(env, old(View()), result)
    {
      if !result.Written? {
        phase, queue := Waiting, queue[1..];
        return;
      }
      var saved := phase.doc;
      written := Some(phase.text);
      checksum := env.checksum(phase.text);
      if GetState().version != saved.version {
        CaptureRound();
      } else {
        phase, queue, dirty := Waiting, queue[1..], false;
      }
    }
  }
}
