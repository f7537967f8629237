/**
 What becomes of changes to a retained document (document_sessions.ts): a change arrives
 whether or not an editor is mounted, stays when editors come and go, and reaches the disk
 with the next save that succeeds; tasks are served in the order they were asked for.
 */
module DocumentArrivals {
  import opened Text
  import opened RetainedDocument

  /** Everything but the documents, the mark on the tab and the version counter. */
  predicate RestKept(s: Session, t: Session) {
    && t.checksum == s.checksum && t.released == s.released && t.queue == s.queue && t.phase == s.phase
    && t.written == s.written
  }

  // ----- Each change arrives

  /** A dispatched change is the document from then on, attached or detached, and marks the tab exactly when it changes
      the content. */
  lemma DispatchArrives(env: Env, s: Session, c: string)
    requires !s.released
    ensures
      var t := Next(env, s, Dispatch(Some(c)));
      && Current(t).content == c && (t.dirty <==> s.dirty || c != Current(s).content)
      && (t.host.Some? <==> s.host.Some?) && (s.host.Some? ==> t.state == s.state) && RestKept(s, t)
  {
  }

  /** A transaction without a document, or one for a released session, changes nothing. */
  lemma DispatchIgnored(env: Env, s: Session, c: Option<string>)
    requires s.released || c.None?
    ensures Next(env, s, Dispatch(c)) == s
  {
  }

  /** What the user types in the mounted editor is the document. */
  lemma EditArrives(env: Env, s: Session, c: string)
    requires s.host.Some?
    ensures
      var t := Next(env, s, Edit(c));
      && Current(t).content == c && (t.dirty <==> s.dirty || c != Current(s).content)
      && t.host.Some? && t.state == s.state && RestKept(s, t)
  {
  }

  /** Detaching takes the editor's document over. */
  lemma DetachKeepsDocument(env: Env, s: Session)
    ensures
      var t := Next(env, s, Detach);
      Current(t) == Current(s) && t.state == Current(s) && t.host.None? && t.dirty == s.dirty && RestKept(s, t)
  {
  }

  /** A new editor gets the content as it is, saved or not; an editor that is gone already changes nothing. */
  lemma AttachKeepsContent(env: Env, s: Session, disposed: bool, restored: bool)
    ensures
      var t := Next(env, s, Attach(disposed, restored));
      && Current(t).content == Current(s).content && t.dirty == s.dirty && RestKept(s, t)
      && (s.released || disposed ==> t == s)
      && (!s.released && !disposed ==> t.state == Current(t) && (t.host.Some? <==> restored))
  {
  }

  /** Only a change through dispatch or in the editor changes the content of a session that is not released. */
  lemma OnlyChangesChange(env: Env, s: Session, step: Step)
    requires Current(Next(env, s, step)).content != Current(s).content && !Next(env, s, step).released
    ensures (step.Dispatch? && step.changed == Some(Current(Next(env, s, step)).content))
         || (step.Edit? && step.content == Current(Next(env, s, step)).content)
  {
  }

  // ----- A task at the head of the queue

  predicate Idle(s: Session) {
    s.phase == Waiting
  }

  /** A save starts with the document of that moment exactly when the session lives in the open vault and the markdown
      service is there; otherwise the task is dropped and nothing else changes. */
  lemma SaveBegins(env: Env, s: Session, inVault: bool, ready: bool, journaled: bool)
    requires Idle(s) && s.queue != [] && s.queue[0] == Save
    ensures
      var t := Next(env, s, Begin(inVault, ready, journaled));
      if !s.released && inVault && ready
      then t == s.(phase := Preparing(Current(s), env.stringify(Current(s).content)))
      else t == s.(queue := s.queue[1..])
  {
  }

  /** A checkpoint only journals: it is over when the journal hook returns, whatever it returned. */
  lemma CheckpointOnlyJournals(env: Env, s: Session, inVault: bool, ready: bool, journaled: bool, ok: bool)
    requires Idle(s) && s.queue != [] && s.queue[0] == Checkpoint
    ensures
      var t := Next(env, s, Begin(inVault, ready, journaled));
      if !s.released && ready && journaled
      then t == s.(phase := Journaling) && Next(env, t, Prepared(ok)) == s.(queue := s.queue[1..])
      else t == s.(queue := s.queue[1..])
  {
  }

  lemma ReleaseReleases(env: Env, s: Session, inVault: bool, ready: bool, journaled: bool)
    requires Idle(s) && s.queue != [] && s.queue[0] == Release
    ensures Next(env, s, Begin(inVault, ready, journaled))
         == s.(released := true, host := None, queue := s.queue[1..])
  {
  }

  /** A save whose hook throws, or whose write conflicts or fails, ends and leaves document, mark and checksum. */
  lemma FailedSaveLeavesAll(env: Env, s: Session, result: WriteResult)
    requires s.queue != []
    ensures s.phase.Preparing? ==> Next(env, s, Prepared(false)) == s.(queue := s.queue[1..], phase := Waiting)
    ensures s.phase.Writing? && result != Written ==>
              Next(env, s, WriteDone(result)) == s.(queue := s.queue[1..], phase := Waiting)
  {
  }

  // ----- Changes reach the disk

  /** One round of a save that nothing disturbs. */
  function Round(env: Env, s: Session, journaled: bool): Session {
    Next(env, Next(env, Next(env, s, Begin(true, true, journaled)), Prepared(true)), WriteDone(Written))
  }

  /** An undisturbed save at the head of the queue writes the text of the current document and cleans the tab. */
  lemma RoundWrites(env: Env, s: Session, journaled: bool)
    requires Idle(s) && s.queue != [] && s.queue[0] == Save && !s.released
    ensures
      var t, text := Round(env, s, journaled), env.stringify(Current(s).content);
      && t.written == Some(text) && t.checksum == env.checksum(text) && !t.dirty
      && Current(t) == Current(s) && t.state == s.state && t.host == s.host
      && t.queue == s.queue[1..] && Idle(t) && !t.released
  {
  }

  /** From any idle session that is not released: a dispatch followed by an undisturbed save writes the text of the
      dispatched content. */
  lemma DispatchThenSaveWrites(env: Env, s: Session, c: string, journaled: bool)
    requires Idle(s) && s.queue == [] && !s.released
    ensures
      var t := Round(env, Next(env, Next(env, s, Dispatch(Some(c))), Call(Save)), journaled);
      && t.written == Some(env.stringify(c)) && t.checksum == env.checksum(env.stringify(c)) && !t.dirty
      && Current(t).content == c && t.queue == [] && Idle(t)
  {
    hide Next, Round;
    DispatchArrives(env, s, c);
    var s1 := Next(env, s, Dispatch(Some(c)));
    CallAsks(env, s1, Save);
    RoundWrites(env, Next(env, s1, Call(Save)), journaled);
  }

  lemma CallAsks(env: Env, s: Session, task: Task)
    ensures Next(env, s, Call(task)) == s.(queue := s.queue + [task])
  {
  }

  /** The same through an editor that comes and goes: what is typed, detached, restored in another editor and then saved
      is what was typed. */
  lemma EditSurvivesEditors(env: Env, s: Session, c: string, restored: bool, journaled: bool)
    requires Idle(s) && s.queue == [] && !s.released && s.host.Some?
    ensures
      var moved := Next(env, Next(env, Next(env, s, Edit(c)), Detach), Attach(false, restored));
      var t := Round(env, Next(env, moved, Call(Save)), journaled);
      && Current(moved).content == c && t.written == Some(env.stringify(c)) && Current(t).content == c && !t.dirty
  {
    hide Next, Round;
    var s1 := Next(env, s, Edit(c));
    EditArrives(env, s, c);
    var s2 := Next(env, s1, Detach);
    DetachKeepsDocument(env, s1);
    var s3 := Next(env, s2, Attach(false, restored));
    AttachKeepsContent(env, s2, false, restored);
    CallAsks(env, s3, Save);
    RoundWrites(env, Next(env, s3, Call(Save)), journaled);
  }

  /** In every run, a change that arrives while a save is writing is not left behind: the save goes round again and
      writes it. */
  lemma LateChangeIsWritten(
      env: Env, content: string, checksum: string, dirty: bool, steps: seq<Step>, c: string)
    requires Run(env, Initial(content, checksum, dirty), steps).phase.Writing?
    ensures
      var s := Run(env, Initial(content, checksum, dirty), steps);
      var late := Next(env, Next(env, s, Dispatch(Some(c))), WriteDone(Written));
      && late.phase == Preparing(Current(late), env.stringify(c)) && late.written == Some(s.phase.text)
      && late.queue == s.queue && (c != Current(s).content ==> late.dirty)
      && var t := Next(env, Next(env, late, Prepared(true)), WriteDone(Written));
      && t.written == Some(env.stringify(c)) && Current(t).content == c && !t.dirty
      && t.queue == s.queue[1..] && t.phase == Waiting
  {
    RunKeeps(env, content, checksum, dirty, steps);
    var s := Run(env, Initial(content, checksum, dirty), steps);
    hide Run;
    WritingSession(env, s, content, checksum);
    hide Inv;
    LateChange(env, s, c);
  }

  lemma WritingSession(env: Env, s: Session, content: string, checksum: string)
    requires Inv(env, s, content, checksum) && s.phase.Writing?
    ensures s.queue != [] && !s.released && s.phase.doc.version < s.versions
  {
  }

  lemma LateChange(env: Env, s: Session, c: string)
    requires s.phase.Writing? && s.queue != [] && !s.released && s.phase.doc.version < s.versions
    ensures
      var late := Next(env, Next(env, s, Dispatch(Some(c))), WriteDone(Written));
      && late.phase == Preparing(Current(late), env.stringify(c)) && late.written == Some(s.phase.text)
      && late.queue == s.queue && (c != Current(s).content ==> late.dirty)
      && var t := Next(env, Next(env, late, Prepared(true)), WriteDone(Written));
      && t.written == Some(env.stringify(c)) && Current(t).content == c && !t.dirty
      && t.queue == s.queue[1..] && t.phase == Waiting
  {
  }

  // ----- First asked, first served

  function Asked(steps: seq<Step>): seq<Task>
    decreases |steps|
  {
    if steps == [] then [] else
      Asked(steps[..|steps| - 1]) + if steps[|steps| - 1].Call? then [steps[|steps| - 1].task] else []
  }

  /** A step serves at most the head of the queue, and only asking adds to its end. */
  lemma QueueStep(env: Env, s: Session, step: Step)
    ensures
      var t := Next(env, s, step);
      if step.Call? then t.queue == s.queue + [step.task]
      else t.queue == s.queue || (s.queue != [] && t.queue == s.queue[1..])
  {
  }

  /** In every run, the tasks still waiting are the last ones asked for, in the order they were asked for. */
  lemma {:induction false} ServedInOrder(env: Env, content: string, checksum: string, dirty: bool, steps: seq<Step>)
    ensures
      var queue := Run(env, Initial(content, checksum, dirty), steps).queue;
      |queue| <= |Asked(steps)| && queue == Asked(steps)[|Asked(steps)| - |queue|..]
    decreases |steps|
  {
    hide Next;
    if steps != [] {
      var n := |steps| - 1;
      ServedInOrder(env, content, checksum, dirty, steps[..n]);
      QueueStep(env, Run(env, Initial(content, checksum, dirty), steps[..n]), steps[n]);
    }
  }
}
