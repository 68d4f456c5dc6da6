/** The protocol can finish: the invariant is not kept by never doing anything. */
module ParseProgress {
  import opened Options
  import opened Text
  import opened Chunking
  import opened Documents
  import opened Materials
  import opened ParseProtocol
  import opened Effects

  /** The seven steps of an undisturbed parse. */
  function Undisturbed(s: System, id: nat, x: Extras): seq<Action> {
    [ClaimTask(id), SendRequest(s.nextWorker), CheckEarly(s.nextAttempt), Compute(s.nextAttempt, Some(x)),
     PersistResult(s.nextAttempt), ReceiveAnswer(s.nextWorker), FinishTask(s.nextWorker, "")]
  }

  lemma {:induction false} RunAppend(env: World, s: System, first: seq<Action>, second: seq<Action>)
    requires Run(env, s, first).Some?
    ensures Run(env, s, first + second) == Run(env, Run(env, s, first).value, second)
    decreases |second|
  {
    if second == [] {
      assert first + second == first;
    } else {
      var init := second[..|second| - 1];
      RunAppend(env, s, first, init);
      assert (first + second)[..|first + second| - 1] == first + init;
    }
  }

  lemma RunOne(env: World, s: System, action: Action)
    ensures Run(env, s, [action]) == Apply(env, s, action)
  {
    assert [action][..0] == [];
  }

  lemma RunCons(env: World, s: System, actions: seq<Action>)
    requires actions != [] && Apply(env, s, actions[0]).Some?
    ensures Run(env, s, actions) == Run(env, Apply(env, s, actions[0]).value, actions[1..])
  {
    RunOne(env, s, actions[0]);
    RunAppend(env, s, [actions[0]], actions[1..]);
    assert [actions[0]] + actions[1..] == actions;
  }

  lemma RunTwo(env: World, s: System, actions: seq<Action>, t: System)
    requires |actions| >= 2 && Apply(env, s, actions[0]).Some?
    requires Apply(env, Apply(env, s, actions[0]).value, actions[1]) == Some(t)
    ensures Run(env, s, actions) == Run(env, t, actions[2..])
  {
    RunCons(env, s, actions);
    RunCons(env, Apply(env, s, actions[0]).value, actions[1..]);
    assert actions[1..][1..] == actions[2..];
  }

  /** A worker waits for its first attempt, and the row is still the one it claimed. */
  ghost predicate UnderWay(t: System, w: nat, a: nat, id: nat, m: Material, versions: Versions, stage: Stage) {
    && id in t.db.materials && t.db.materials[id] == m && t.db.versions == versions && m.status == Parsing
    && a in t.attempts && t.attempts[a] == Attempt(TaskOf(id, m), stage)
    && w in t.workers && t.workers[w].task == TaskOf(id, m) && t.workers[w].phase == Waiting(a)
  }

  lemma Starts(env: World, s: System, id: nat)
    requires id in s.db.materials && s.db.materials[id].status == Pending
    ensures Apply(env, s, ClaimTask(id)).Some?
    ensures var t := Apply(env, Apply(env, s, ClaimTask(id)).value, SendRequest(s.nextWorker));
            t.Some? && UnderWay(t.value, s.nextWorker, s.nextAttempt, id,
                                s.db.materials[id].(status := Parsing, error := None), s.db.versions, Started) &&
            OnlyRow(s.db, t.value.db, id)
  {
  }

  lemma Computes(env: World, t: System, w: nat, a: nat, id: nat, m: Material, text: string, x: Extras)
    requires UnderWay(t, w, a, id, m, t.db.versions, Started)
    requires ExtractText(env, Deref(m.fileType), Deref(m.content), Deref(m.storageKey)) == Some(text)
    ensures Apply(env, t, CheckEarly(a)).Some?
    ensures var u := Apply(env, Apply(env, t, CheckEarly(a)).value, Compute(a, Some(x)));
            u.Some? && UnderWay(u.value, w, a, id, m, t.db.versions,
                                Computed(Process(env.cfg, Clean(env, text), x.summary, x.questions, x.images))) &&
            u.value.db == t.db
  {
  }

  lemma Stores(env: World, t: System, w: nat, a: nat, id: nat, m: Material, doc: Parsed)
    requires UnderWay(t, w, a, id, m, t.db.versions, Computed(doc))
    ensures Apply(env, t, PersistResult(a)).Some?
    ensures var u := Apply(env, Apply(env, t, PersistResult(a)).value, ReceiveAnswer(w));
            && u.Some? && id in u.value.db.materials
            && u.value.db.materials[id] == WithDocument(m, t.db.versions, doc, m.passes)
            && w in u.value.workers && u.value.workers[w].task == TaskOf(id, m)
            && u.value.workers[w].phase == Verdict(true) && OnlyRow(t.db, u.value.db, id)
  {
  }

  lemma Finishes(env: World, t: System, w: nat, id: nat)
    requires w in t.workers && t.workers[w].phase == Verdict(true) && t.workers[w].task.material == id
    requires Holds(t.db, id, t.workers[w].task.generation)
    ensures var u := Apply(env, t, FinishTask(w, ""));
            && u.Some? && id in u.value.db.materials && w !in u.value.workers
            && u.value.db.materials[id] == t.db.materials[id].(status := Done, error := None)
            && OnlyRow(t.db, u.value.db, id)
  {
  }

  /** The row after an undisturbed parse of the given text. */
  function ParsedRow(env: World, m: Material, versions: Versions, text: string, x: Extras): Material {
    var doc := Process(env.cfg, Clean(env, text), x.summary, x.questions, x.images);
    WithDocument(m, versions, doc, m.passes).(status := Done, error := None)
  }

  /** From any state, seven steps bring a queued material with readable text to done. */
  lemma QueuedMaterialsCanFinish(env: World, s: System, id: nat, text: string, x: Extras)
    requires id in s.db.materials && s.db.materials[id].status == Pending
    requires var m := s.db.materials[id];
             ExtractText(env, Deref(m.fileType), Deref(m.content), Deref(m.storageKey)) == Some(text)
    ensures var t := Run(env, s, Undisturbed(s, id, x));
            && t.Some? && id in t.value.db.materials && s.nextWorker !in t.value.workers
            && t.value.db.materials[id] == ParsedRow(env, s.db.materials[id], s.db.versions, text, x)
            && OnlyRow(s.db, t.value.db, id)
  {
    var w, a := s.nextWorker, s.nextAttempt;
    var m := s.db.materials[id].(status := Parsing, error := None);
    var doc := Process(env.cfg, Clean(env, text), x.summary, x.questions, x.images);
    var all := Undisturbed(s, id, x);
    Starts(env, s, id);
    var t := Apply(env, Apply(env, s, all[0]).value, all[1]).value;
    Computes(env, t, w, a, id, m, text, x);
    var u := Apply(env, Apply(env, t, all[2]).value, all[3]).value;
    Stores(env, u, w, a, id, m, doc);
    var v := Apply(env, Apply(env, u, all[4]).value, all[5]).value;
    Finishes(env, v, w, id);
    RunTwo(env, s, all, t);
    RunTwo(env, t, all[2..], u);
    RunTwo(env, u, all[4..], v);
    RunOne(env, v, all[6]);
    assert all[2..][2..] == all[4..] && all[4..][2..] == [all[6]];
  }

  /**
   * The run in which an edit is lost: the user edits an office document that has a stored file, the parse
   * goes through undisturbed, and the material is done with the text of the stored file.
   */
  lemma OfficeEditIsLostInARun(env: World, s: System, id: nat, edit: string, text: string, x: Extras)
    requires id in s.db.materials && s.db.materials[id].content != Some(edit)
    requires var m := s.db.materials[id];
             && FileKind(Deref(m.fileType)) == "docx" && Deref(m.storageKey) != ""
             && env.officeText("docx", Stored(Deref(m.storageKey))) == Some(text)
    ensures var edited := Apply(env, s, EditMaterial(id, Some(edit))).value;
            var t := Run(env, edited, Undisturbed(edited, id, x));
            && t.Some? && id in t.value.db.materials
            && t.value.db.materials[id].status == Done && t.value.db.materials[id].edit == edit
            && t.value.db.materials[id].content == Some(Clean(env, text))
  {
    var edited := Apply(env, s, EditMaterial(id, Some(edit))).value;
    assert edited.db.materials[id] == Edited(s.db.materials[id], edit);
    QueuedMaterialsCanFinish(env, edited, id, text, x);
  }

  /**
   * What is served after an edit and an undisturbed parse: the new chunks exactly if rag-v2 is active or there
   * are no legacy chunks; otherwise the material goes back to its legacy chunks, even from rag-v2.
   */
  lemma EditIsServedIff(env: World, s: System, id: nat, edit: string, text: string, x: Extras)
    requires id in s.db.materials && s.db.materials[id].content != Some(edit)
    requires var m := s.db.materials[id];
             ExtractText(env, Deref(m.fileType), edit, Deref(m.storageKey)) == Some(text)
    ensures var edited := Apply(env, s, EditMaterial(id, Some(edit))).value;
            var t := Run(env, edited, Undisturbed(edited, id, x));
            && t.Some? && id in t.value.db.materials
            && var m, n := s.db.materials[id], t.value.db.materials[id];
               && n.status == Done && n.edit == edit && n.content == Some(Clean(env, text))
               && (n.index == RagV2 <==> s.db.versions.v2 == Active || m.legacy == [])
               && Visible(n) ==
                  if s.db.versions.v2 == Active || m.legacy == []
                  then Process(env.cfg, Clean(env, text), x.summary, x.questions, x.images).chunks else m.legacy
  {
    var edited := Apply(env, s, EditMaterial(id, Some(edit))).value;
    assert edited.db.materials[id] == Edited(s.db.materials[id], edit);
    QueuedMaterialsCanFinish(env, edited, id, text, x);
  }

  // ---------------------------------------------------------------- an edit that a crash replaces

  /** A parse that commits, after which the Backend dies and recovers before the task is completed. */
  function CrashAfterPersist(s: System, id: nat, x: Extras): seq<Action> {
    [ClaimTask(id), SendRequest(s.nextWorker), CheckEarly(s.nextAttempt), Compute(s.nextAttempt, Some(x)),
     PersistResult(s.nextAttempt), ExitProcess({s.nextWorker}), RecoverTasks]
  }

  lemma StoresAndDies(env: World, t: System, w: nat, a: nat, id: nat, m: Material, doc: Parsed)
    requires UnderWay(t, w, a, id, m, t.db.versions, Computed(doc))
    ensures Apply(env, t, PersistResult(a)).Some?
    ensures var u := Apply(env, Apply(env, t, PersistResult(a)).value, ExitProcess({w}));
            && u.Some? && id in u.value.db.materials && u.value.db.versions == t.db.versions
            && u.value.db.materials[id] == WithDocument(m, t.db.versions, doc, m.passes)
  {
  }

  lemma {:induction false} CrashedRow(env: World, s: System, id: nat, text: string, x: Extras)
    requires id in s.db.materials && s.db.materials[id].status == Pending
    requires var m := s.db.materials[id];
             ExtractText(env, Deref(m.fileType), Deref(m.content), Deref(m.storageKey)) == Some(text)
    ensures var t := Run(env, s, CrashAfterPersist(s, id, x));
            && t.Some? && id in t.value.db.materials
            && var m, n := s.db.materials[id], t.value.db.materials[id];
               && n.status == Pending && n.content == Some(Clean(env, text)) && n.edit == m.edit
               && n.passes == m.passes + 1 && n.fileType == m.fileType && n.storageKey == m.storageKey
  {
    hide Process, Persist, Claim;
    var w, a := s.nextWorker, s.nextAttempt;
    var m := s.db.materials[id].(status := Parsing, error := None);
    var doc := Process(env.cfg, Clean(env, text), x.summary, x.questions, x.images);
    var all := CrashAfterPersist(s, id, x);
    Starts(env, s, id);
    var t := Apply(env, Apply(env, s, all[0]).value, all[1]).value;
    Computes(env, t, w, a, id, m, text, x);
    var u := Apply(env, Apply(env, t, all[2]).value, all[3]).value;
    StoresAndDies(env, u, w, a, id, m, doc);
    var v := Apply(env, Apply(env, u, all[4]).value, all[5]).value;
    RunTwo(env, s, all, t);
    RunTwo(env, t, all[2..], u);
    RunTwo(env, u, all[4..], v);
    RunOne(env, v, all[6]);
    assert all[2..][2..] == all[4..] && all[4..][2..] == [all[6]];
    ProcessKeepsTheText(env, Clean(env, text), x);
  }

  lemma ProcessKeepsTheText(env: World, markdown: string, x: Extras)
    ensures Process(env.cfg, markdown, x.summary, x.questions, x.images).markdown == markdown
  {
  }

  // ---------------------------------------------------------------- any number of passes

  /** Parses in a row that each commit before the Backend dies. */
  function Crashes(env: World, s: System, id: nat, n: nat, x: Extras): seq<Action> {
    if n == 0 then []
    else
      var init := Crashes(env, s, id, n - 1, x);
      match Run(env, s, init)
      case None => init
      case Some(t) => init + CrashAfterPersist(t, id, x)
  }

  /** What n committed passes leave of the row, up to status, generation and chunks. */
  ghost predicate Passed(env: World, m: Material, after: Material, n: nat) {
    && after.fileType == m.fileType && after.storageKey == m.storageKey && after.edit == m.edit
    && after.passes == m.passes + n
    && ParseTimes(env, Deref(m.fileType), Deref(m.storageKey), n, Deref(m.content)) == Some(Deref(after.content))
  }

  /** What the last of n passes read, and left. */
  lemma LastPass(env: World, fileType: string, storageKey: string, n: nat, text: string)
    requires n > 0 && ParseTimes(env, fileType, storageKey, n, text).Some?
    ensures ParseTimes(env, fileType, storageKey, n - 1, text).Some?
    ensures var before := ParseTimes(env, fileType, storageKey, n - 1, text).value;
            && ExtractText(env, fileType, before, storageKey).Some?
            && ParseTimes(env, fileType, storageKey, n, text) ==
               Some(Clean(env, ExtractText(env, fileType, before, storageKey).value))
  {
  }

  lemma {:induction false} CrashesPass(env: World, s: System, id: nat, n: nat, x: Extras)
    requires id in s.db.materials && s.db.materials[id].status == Pending
    requires var m := s.db.materials[id];
             ParseTimes(env, Deref(m.fileType), Deref(m.storageKey), n, Deref(m.content)).Some?
    ensures var t := Run(env, s, Crashes(env, s, id, n, x));
            && t.Some? && id in t.value.db.materials && t.value.db.materials[id].status == Pending
            && Passed(env, s.db.materials[id], t.value.db.materials[id], n)
  {
    if n > 0 {
      hide Run, ExtractText, CrashAfterPersist, Clean, ParseTimes;
      var m0 := s.db.materials[id];
      LastPass(env, Deref(m0.fileType), Deref(m0.storageKey), n, Deref(m0.content));
      CrashesPass(env, s, id, n - 1, x);
      var init := Crashes(env, s, id, n - 1, x);
      var t := Run(env, s, init).value;
      var m := t.db.materials[id];
      var text := ExtractText(env, Deref(m.fileType), Deref(m.content), Deref(m.storageKey)).value;
      CrashedRow(env, t, id, text, x);
      RunAppend(env, s, init, CrashAfterPersist(t, id, x));
    } else {
      assert Run(env, s, []) == Some(s);
    }
  }

  /** All but the last of n passes end in a crash. */
  function Passes(env: World, s: System, id: nat, n: nat, x: Extras): seq<Action>
    requires n >= 1
  {
    var init := Crashes(env, s, id, n - 1, x);
    match Run(env, s, init)
    case None => init
    case Some(t) => init + Undisturbed(t, id, x)
  }

  /** Every number of passes that can be read is the number of passes of some run. */
  lemma {:induction false} AnyPassCanBeTheLast(env: World, s: System, id: nat, n: nat, x: Extras)
    requires id in s.db.materials && s.db.materials[id].status == Pending && n >= 1
    requires var m := s.db.materials[id];
             ParseTimes(env, Deref(m.fileType), Deref(m.storageKey), n, Deref(m.content)).Some?
    ensures var t := Run(env, s, Passes(env, s, id, n, x));
            && t.Some? && id in t.value.db.materials && t.value.db.materials[id].status == Done
            && Passed(env, s.db.materials[id], t.value.db.materials[id], n)
            && t.value.db.materials[id].content.Some? && HasBody(t.value.db.materials[id].v2)
  {
    hide Run, ExtractText, Undisturbed, BodyRecords, ParseTimes;
    var m0 := s.db.materials[id];
    LastPass(env, Deref(m0.fileType), Deref(m0.storageKey), n, Deref(m0.content));
    CrashesPass(env, s, id, n - 1, x);
    var init := Crashes(env, s, id, n - 1, x);
    var t := Run(env, s, init).value;
    var m := t.db.materials[id];
    var text := ExtractText(env, Deref(m.fileType), Deref(m.content), Deref(m.storageKey)).value;
    QueuedMaterialsCanFinish(env, t, id, text, x);
    RunAppend(env, s, init, Undisturbed(t, id, x));
    ProcessKeepsTheText(env, Clean(env, text), x);
    StripIdempotent(env.scrub(text));
    ProcessedIsStorable(env.cfg, Clean(env, text), x.summary, x.questions, x.images);
  }
}
