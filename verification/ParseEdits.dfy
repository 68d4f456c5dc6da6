/** What becomes of a user's edit: exactly when the index is sure to hold it, and the runs that replace it. */
module ParseEdits {
  import opened Options
  import opened Chunking
  import opened Documents
  import opened Materials
  import opened ParseProtocol
  import opened ParseSafety
  import opened ParseSteps
  import opened ParseTheorems
  import opened ParseProgress

  // ---------------------------------------------------------------- passes over one text

  /** n cleanings in a row. */
  function CleanTimes(env: World, n: nat, text: string): string {
    if n == 0 then text else Clean(env, CleanTimes(env, n - 1, text))
  }

  /** Whether parsing starts from the content column itself rather than from a stored file or an office reader. */
  predicate ReadsTheRow(fileType: string, content: string, storageKey: string) {
    IsTextKind(FileKind(fileType)) && (content != "" || storageKey == "")
  }

  /** No pass before the given one empties a text that has a stored file behind it. */
  predicate StaysReadable(env: World, fileType: string, storageKey: string, n: nat, edit: string) {
    forall k :: 0 <= k < n ==> ReadsTheRow(fileType, CleanTimes(env, k, edit), storageKey)
  }

  /** An edit of a text material reaches content and chunks as it is, cleaned once per pass. */
  lemma {:induction false} TextEditsSurvive(env: World, fileType: string, storageKey: string, n: nat, edit: string)
    requires StaysReadable(env, fileType, storageKey, n, edit)
    ensures ParseTimes(env, fileType, storageKey, n, edit) == Some(CleanTimes(env, n, edit))
  {
    if n > 0 {
      TextEditsSurvive(env, fileType, storageKey, n - 1, edit);
      assert ReadsTheRow(fileType, CleanTimes(env, n - 1, edit), storageKey);
    }
  }

  /** An edit of an office document with a stored file is lost: no parse looks at it. */
  lemma {:induction false} OfficeEditsAreLost(env: World, fileType: string, storageKey: string, n: nat,
                                              edit: string, other: string)
    requires !IsTextKind(FileKind(fileType)) && storageKey != "" && n >= 1
    requires ParseTimes(env, fileType, storageKey, n, edit).Some?
    ensures ParseTimes(env, fileType, storageKey, n, edit) == ParseTimes(env, fileType, storageKey, n, other)
  {
    if n > 1 {
      OfficeEditsAreLost(env, fileType, storageKey, n - 1, edit, other);
    } else {
      assert ParseTimes(env, fileType, storageKey, 0, edit) == Some(edit);
      assert ParseTimes(env, fileType, storageKey, 0, other) == Some(other);
    }
  }

  // ---------------------------------------------------------------- every world that cleans alike

  /** Worlds that clean and chunk alike; stored files and office readers may differ. */
  ghost predicate Agree(w: World, env: World) {
    w.cfg == env.cfg && w.scrub == env.scrub
  }

  /** The world in which every stored file and every office document reads as given. */
  function Reading(env: World, text: Option<string>): World {
    env.(storedText := (key: string) => text, officeText := (kind: string, b: Blob) => text)
  }

  /** Exactly when a parse is sure to start from what the user wrote. */
  lemma EditIsReadIff(env: World, fileType: string, content: string, storageKey: string)
    ensures (forall w: World :: Agree(w, env) ==> ExtractText(w, fileType, content, storageKey) == Some(content)) <==>
            ReadsTheRow(fileType, content, storageKey)
  {
    if !ReadsTheRow(fileType, content, storageKey) {
      assert ExtractText(Reading(env, None), fileType, content, storageKey) == None;
    }
  }

  lemma {:induction false} CleanedAlike(w: World, env: World, n: nat, edit: string)
    requires Agree(w, env)
    ensures CleanTimes(w, n, edit) == CleanTimes(env, n, edit)
  {
    if n > 0 {
      CleanedAlike(w, env, n - 1, edit);
    }
  }

  lemma ReadableAlike(w: World, env: World, fileType: string, storageKey: string, n: nat, edit: string)
    requires Agree(w, env) && StaysReadable(env, fileType, storageKey, n, edit)
    ensures StaysReadable(w, fileType, storageKey, n, edit)
  {
    forall k | 0 <= k < n ensures ReadsTheRow(fileType, CleanTimes(w, k, edit), storageKey) {
      CleanedAlike(w, env, k, edit);
    }
  }

  /** An edit that stays readable comes through in every world that cleans alike. */
  lemma SurvivesAlike(w: World, env: World, fileType: string, storageKey: string, n: nat, edit: string)
    requires Agree(w, env) && StaysReadable(env, fileType, storageKey, n, edit)
    ensures ParseTimes(w, fileType, storageKey, n, edit) == Some(CleanTimes(env, n, edit))
  {
    ReadableAlike(w, env, fileType, storageKey, n, edit);
    TextEditsSurvive(w, fileType, storageKey, n, edit);
    CleanedAlike(w, env, n, edit);
  }

  /** The first pass that does not start from the row. */
  lemma {:induction false} FirstUnread(env: World, fileType: string, storageKey: string, n: nat, edit: string)
    returns (k: nat)
    requires !StaysReadable(env, fileType, storageKey, n, edit)
    ensures k < n && StaysReadable(env, fileType, storageKey, k, edit)
    ensures !ReadsTheRow(fileType, CleanTimes(env, k, edit), storageKey)
  {
    k := n - 1;
    if !StaysReadable(env, fileType, storageKey, n - 1, edit) {
      k := FirstUnread(env, fileType, storageKey, n - 1, edit);
    }
  }

  lemma {:induction false} FailureStays(env: World, fileType: string, storageKey: string, k: nat, n: nat, edit: string)
    requires k <= n && ParseTimes(env, fileType, storageKey, k, edit).None?
    ensures ParseTimes(env, fileType, storageKey, n, edit).None?
  {
    if k < n {
      FailureStays(env, fileType, storageKey, k, n - 1, edit);
    }
  }

  /** Whether n passes are sure to yield the edit, cleaned n times, whatever files and readers hold. */
  ghost predicate Sure(env: World, fileType: string, storageKey: string, n: nat, edit: string) {
    forall w: World :: Agree(w, env) ==>
      ParseTimes(w, fileType, storageKey, n, edit) == Some(CleanTimes(env, n, edit))
  }

  /** n passes are sure to yield the edit exactly when each of them starts from the row. */
  lemma {:induction false} PassesAreSureIff(env: World, fileType: string, storageKey: string, n: nat, edit: string)
    ensures Sure(env, fileType, storageKey, n, edit) <==> StaysReadable(env, fileType, storageKey, n, edit)
  {
    if StaysReadable(env, fileType, storageKey, n, edit) {
      forall w: World | Agree(w, env)
        ensures ParseTimes(w, fileType, storageKey, n, edit) == Some(CleanTimes(env, n, edit))
      {
        SurvivesAlike(w, env, fileType, storageKey, n, edit);
      }
    } else {
      var k := FirstUnread(env, fileType, storageKey, n, edit);
      var w := Reading(env, None);
      SurvivesAlike(w, env, fileType, storageKey, k, edit);
      assert ParseTimes(w, fileType, storageKey, k + 1, edit).None?;
      FailureStays(w, fileType, storageKey, k + 1, n, edit);
    }
  }

  /**
   * What a caller can check before the edit: the material is of a text kind, and it has no stored file or no
   * number of cleanings empties the text.
   */
  ghost predicate Lasting(env: World, fileType: string, storageKey: string, edit: string) {
    IsTextKind(FileKind(fileType)) && (storageKey == "" || forall k: nat :: CleanTimes(env, k, edit) != "")
  }

  lemma LastingStaysReadable(env: World, fileType: string, storageKey: string, edit: string)
    ensures Lasting(env, fileType, storageKey, edit) <==>
            forall n: nat :: StaysReadable(env, fileType, storageKey, n, edit)
  {
    if !Lasting(env, fileType, storageKey, edit) {
      var k: nat :| !ReadsTheRow(fileType, CleanTimes(env, k, edit), storageKey);
      assert !StaysReadable(env, fileType, storageKey, k + 1, edit);
    }
  }

  /** However often it is parsed, an edit is sure to come through exactly when it is lasting. */
  lemma EditIsSureIff(env: World, fileType: string, storageKey: string, edit: string)
    ensures (forall n: nat :: Sure(env, fileType, storageKey, n, edit)) <==>
            Lasting(env, fileType, storageKey, edit)
  {
    LastingStaysReadable(env, fileType, storageKey, edit);
    forall n: nat
      ensures Sure(env, fileType, storageKey, n, edit) <==> StaysReadable(env, fileType, storageKey, n, edit)
    {
      PassesAreSureIff(env, fileType, storageKey, n, edit);
    }
  }

  // ---------------------------------------------------------------- every run

  /** A run that ends with the material done, indexed since its last edit, which was the given one. */
  ghost predicate Indexes(w: World, s: System, actions: seq<Action>, id: nat,
                          fileType: string, storageKey: string, edit: string)
  {
    && Initial(w, s) && Run(w, s, actions).Some? && id in Run(w, s, actions).value.db.materials
    && var m := Run(w, s, actions).value.db.materials[id];
       && m.status == Done && m.v2 != []
       && Deref(m.fileType) == fileType && Deref(m.storageKey) == storageKey && m.edit == edit
  }

  /** Content and chunks are those of the edit, cleaned once per pass. */
  ghost predicate HoldsTheEdit(w: World, m: Material) {
    && m.passes >= 1 && m.content == Some(CleanTimes(w, m.passes, m.edit))
    && BuiltFrom(w, m.v2, CleanTimes(w, m.passes, m.edit))
  }

  /** In every run a lasting edit is what the content column and the rag-v2 chunks hold when it is done. */
  lemma TextEditsReachTheIndex(env: World, s: System, actions: seq<Action>, id: nat,
                               fileType: string, storageKey: string, edit: string)
    requires Indexes(env, s, actions, id, fileType, storageKey, edit)
    requires Lasting(env, fileType, storageKey, edit)
    ensures HoldsTheEdit(env, Run(env, s, actions).value.db.materials[id])
  {
    var m := Run(env, s, actions).value.db.materials[id];
    DoneMaterialsHoldTheLatestEdit(env, s, actions, id);
    LastingStaysReadable(env, fileType, storageKey, edit);
    TextEditsSurvive(env, fileType, storageKey, m.passes, edit);
  }

  // ---------------------------------------------------------------- runs that replace an edit

  /** A queued row after an edit that changes its content. */
  lemma EditQueues(env: World, s: System, id: nat, edit: string)
    requires id in s.db.materials && s.db.materials[id].content != Some(edit)
    ensures var edited := Apply(env, s, EditMaterial(id, Some(edit)));
            && edited.Some? && id in edited.value.db.materials
            && var m, n := s.db.materials[id], edited.value.db.materials[id];
               && n.status == Pending && n.content == Some(edit) && n.edit == edit && n.passes == 0
               && n.fileType == m.fileType && n.storageKey == m.storageKey
  {
  }

  /**
   * From any state and for every n: after an edit some run of n committed passes, all but the last of them
   * ended by a crash, leaves the material done with just what n passes make of the edit.
   */
  lemma {:induction false} EveryPassIsReached(env: World, s: System, id: nat, edit: string, n: nat, x: Extras)
    requires id in s.db.materials && s.db.materials[id].content != Some(edit) && n >= 1
    requires var m := s.db.materials[id];
             ParseTimes(env, Deref(m.fileType), Deref(m.storageKey), n, edit).Some?
    ensures var edited := Apply(env, s, EditMaterial(id, Some(edit))).value;
            var t := Run(env, edited, Passes(env, edited, id, n, x));
            && t.Some? && id in t.value.db.materials
            && var m, done := s.db.materials[id], t.value.db.materials[id];
               && done.status == Done && done.edit == edit && done.passes == n && HasBody(done.v2)
               && done.fileType == m.fileType && done.storageKey == m.storageKey
               && done.content == ParseTimes(env, Deref(m.fileType), Deref(m.storageKey), n, edit)
  {
    hide Run, ParseTimes, Passes;
    EditQueues(env, s, id, edit);
    AnyPassCanBeTheLast(env, Apply(env, s, EditMaterial(id, Some(edit))).value, id, n, x);
  }

  /** A pass ends with the clean form of what it read. */
  lemma OnePassMore(w: World, fileType: string, storageKey: string, k: nat, edit: string, text: string)
    requires ParseTimes(w, fileType, storageKey, k, edit).Some?
    requires ExtractText(w, fileType, ParseTimes(w, fileType, storageKey, k, edit).value, storageKey) == Some(text)
    ensures ParseTimes(w, fileType, storageKey, k + 1, edit) == Some(Clean(w, text))
  {
  }

  /**
   * The runs in which an edit of a text material is undone: k passes, each but the last ended by a crash,
   * empty the text, and the next one reads the stored file instead.
   */
  lemma {:induction false} EmptiedEditIsReplaced(env: World, s: System, id: nat, edit: string, text: string,
                                                 k: nat, x: Extras)
    requires id in s.db.materials && s.db.materials[id].content != Some(edit)
    requires CleanTimes(env, k, edit) == "" && forall j :: 0 <= j < k ==> CleanTimes(env, j, edit) != ""
    requires var m := s.db.materials[id];
             && IsTextKind(FileKind(Deref(m.fileType))) && Deref(m.storageKey) != ""
             && env.storedText(Deref(m.storageKey)) == Some(text)
    ensures var edited := Apply(env, s, EditMaterial(id, Some(edit))).value;
            var t := Run(env, edited, Passes(env, edited, id, k + 1, x));
            && t.Some? && id in t.value.db.materials
            && var done := t.value.db.materials[id];
               && done.status == Done && done.edit == edit && done.passes == k + 1
               && done.content == Some(Clean(env, text))
  {
    hide Run, Passes, ParseTimes, CleanTimes, FileKind, IsTextKind;
    var m := s.db.materials[id];
    TextEditsSurvive(env, Deref(m.fileType), Deref(m.storageKey), k, edit);
    OnePassMore(env, Deref(m.fileType), Deref(m.storageKey), k, edit, text);
    EveryPassIsReached(env, s, id, edit, k + 1, x);
  }

  // ---------------------------------------------------------------- exactly when an edit is safe

  /** Whatever files and readers hold, no run that indexes the edit holds anything else. */
  ghost predicate Safe(env: World, fileType: string, storageKey: string, edit: string) {
    forall w: World, s, actions, id ::
      Agree(w, env) && Indexes(w, s, actions, id, fileType, storageKey, edit) ==>
        HoldsTheEdit(w, Run(w, s, actions).value.db.materials[id])
  }

  /** Whether a parse of the type can go through at all. */
  predicate Parsable(fileType: string) {
    var kind := FileKind(fileType);
    IsTextKind(kind) || kind == "docx" || kind == "pdf"
  }

  /** Some two texts are still different when they are clean. */
  ghost predicate Discerning(env: World) {
    exists a, b :: Clean(env, a) != Clean(env, b)
  }

  /** A new material with nothing in it, right after the migration of empty tables. */
  function EmptyTables(): System {
    System(Db(map[], 0, Versions(Active, None, Building, None)), 0, map[], 0, map[], 0, [])
  }

  function Upload(fileType: string, storageKey: string): seq<Action> {
    [CreateMaterial(None, Some(fileType), Some(storageKey))]
  }

  lemma UploadRuns(w: World, fileType: string, storageKey: string)
    ensures Initial(w, EmptyTables())
    ensures var s := Run(w, EmptyTables(), Upload(fileType, storageKey));
            && s.Some? && 0 in s.value.db.materials
            && s.value.db.materials[0] == NewMaterial(None, Some(fileType), Some(storageKey))
  {
    RunOne(w, EmptyTables(), CreateMaterial(None, Some(fileType), Some(storageKey)));
  }

  /** When some number of passes yields something else than the edit, some run indexes that. */
  lemma {:induction false} NotSafe(w: World, env: World, fileType: string, storageKey: string, n: nat, edit: string)
    requires Agree(w, env) && n >= 1
    requires ParseTimes(w, fileType, storageKey, n, edit).Some?
    requires ParseTimes(w, fileType, storageKey, n, edit) != Some(CleanTimes(w, n, edit))
    ensures !Safe(env, fileType, storageKey, edit)
  {
    hide Run, ParseTimes, Passes, CleanTimes, EmptyTables, Upload, HasBody;
    var x := Extras("", [], []);
    var first := Upload(fileType, storageKey);
    UploadRuns(w, fileType, storageKey);
    var s := Run(w, EmptyTables(), first).value;
    EveryPassIsReached(w, s, 0, edit, n, x);
    var edited := Apply(w, s, EditMaterial(0, Some(edit))).value;
    var second := [EditMaterial(0, Some(edit))];
    RunOne(w, s, second[0]);
    RunAppend(w, EmptyTables(), first, second);
    var third := Passes(w, edited, 0, n, x);
    RunAppend(w, EmptyTables(), first + second, third);
    var all := first + second + third;
    assert Indexes(w, EmptyTables(), all, 0, fileType, storageKey, edit) by {
      assert HasBody(Run(w, EmptyTables(), all).value.db.materials[0].v2);
      HasBodyNonEmpty(Run(w, EmptyTables(), all).value.db.materials[0].v2);
    }
    assert !HoldsTheEdit(w, Run(w, EmptyTables(), all).value.db.materials[0]);
  }

  lemma HasBodyNonEmpty(chunks: seq<ChunkRecord>)
    requires HasBody(chunks)
    ensures chunks != []
  {
  }

  /** A pass that does not start from the row reads what the world holds instead. */
  lemma ReadElsewhere(env: World, fileType: string, content: string, storageKey: string, text: string)
    requires Parsable(fileType) && !ReadsTheRow(fileType, content, storageKey)
    ensures ExtractText(Reading(env, Some(text)), fileType, content, storageKey) == Some(text)
    ensures Agree(Reading(env, Some(text)), env) && Clean(Reading(env, Some(text)), text) == Clean(env, text)
  {
  }

  lemma {:induction false} SomePassUnread(env: World, fileType: string, storageKey: string, edit: string)
    returns (k: nat)
    requires !Lasting(env, fileType, storageKey, edit)
    ensures StaysReadable(env, fileType, storageKey, k, edit)
    ensures !ReadsTheRow(fileType, CleanTimes(env, k, edit), storageKey)
  {
    hide CleanTimes, StaysReadable, ReadsTheRow, Lasting;
    LastingStaysReadable(env, fileType, storageKey, edit);
    var m: nat :| !StaysReadable(env, fileType, storageKey, m, edit);
    k := FirstUnread(env, fileType, storageKey, m, edit);
  }

  lemma TellingText(env: World, other: string) returns (text: string)
    requires Discerning(env)
    ensures Clean(env, text) != other
  {
    hide Clean;
    var a, b :| Clean(env, a) != Clean(env, b);
    text := if Clean(env, a) != other then a else b;
  }

  /** The first pass that does not start from the row may read another text than the edit has become. */
  lemma {:induction false} AnotherText(env: World, fileType: string, storageKey: string, k: nat, edit: string, text: string)
    requires Parsable(fileType) && Clean(env, text) != CleanTimes(env, k + 1, edit)
    requires StaysReadable(env, fileType, storageKey, k, edit)
    requires !ReadsTheRow(fileType, CleanTimes(env, k, edit), storageKey)
    ensures var w := Reading(env, Some(text));
            && Agree(w, env) && ParseTimes(w, fileType, storageKey, k + 1, edit).Some?
            && ParseTimes(w, fileType, storageKey, k + 1, edit) != Some(CleanTimes(w, k + 1, edit))
  {
    hide *;
    var w := Reading(env, Some(text));
    ReadElsewhere(env, fileType, CleanTimes(env, k, edit), storageKey, text);
    SurvivesAlike(w, env, fileType, storageKey, k, edit);
    CleanedAlike(w, env, k + 1, edit);
    OnePassMore(w, fileType, storageKey, k, edit, text);
  }

  lemma UnparsableFails(env: World, fileType: string, storageKey: string, n: nat, edit: string)
    requires !Parsable(fileType) && n >= 1
    ensures ParseTimes(env, fileType, storageKey, n, edit).None?
  {
  }

  /** When cleaning makes all texts alike, one cannot tell which text was parsed. */
  lemma AllAlike(env: World, fileType: string, storageKey: string, n: nat, edit: string)
    requires !Discerning(env) && n >= 1 && ParseTimes(env, fileType, storageKey, n, edit).Some?
    ensures ParseTimes(env, fileType, storageKey, n, edit) == Some(CleanTimes(env, n, edit))
  {
  }

  lemma NothingElseIndexed(w: World, env: World, s: System, actions: seq<Action>, id: nat,
                           fileType: string, storageKey: string, edit: string)
    requires Agree(w, env) && Indexes(w, s, actions, id, fileType, storageKey, edit)
    requires Lasting(env, fileType, storageKey, edit) || !Parsable(fileType) || !Discerning(env)
    ensures HoldsTheEdit(w, Run(w, s, actions).value.db.materials[id])
  {
    hide Run;
    var m := Run(w, s, actions).value.db.materials[id];
    DoneMaterialsHoldTheLatestEdit(w, s, actions, id);
    if !Parsable(fileType) {
      UnparsableFails(w, fileType, storageKey, m.passes, edit);
    } else if !Discerning(env) {
      assert !Discerning(w) by {
        forall a, b ensures Clean(w, a) == Clean(w, b) {
          assert Clean(env, a) == Clean(env, b);
        }
      }
      AllAlike(w, fileType, storageKey, m.passes, edit);
    } else {
      LastingStaysReadable(env, fileType, storageKey, edit);
      SurvivesAlike(w, env, fileType, storageKey, m.passes, edit);
      CleanedAlike(w, env, m.passes, edit);
    }
  }

  /**
   * Exactly when no run can index anything else than the edit, cleaned once per pass: the edit is lasting, or
   * there is nothing to tell, because the type is never parsed or cleaning makes all texts alike.
   */
  lemma EditIsSafeIff(env: World, fileType: string, storageKey: string, edit: string)
    ensures Safe(env, fileType, storageKey, edit) <==>
            Lasting(env, fileType, storageKey, edit) || !Parsable(fileType) || !Discerning(env)
  {
    hide Lasting, Parsable, Discerning, HoldsTheEdit, Run, CleanTimes, StaysReadable, ReadsTheRow, ParseTimes;
    if Lasting(env, fileType, storageKey, edit) || !Parsable(fileType) || !Discerning(env) {
      forall w: World, s, actions, id | Agree(w, env) && Indexes(w, s, actions, id, fileType, storageKey, edit)
        ensures HoldsTheEdit(w, Run(w, s, actions).value.db.materials[id])
      {
        NothingElseIndexed(w, env, s, actions, id, fileType, storageKey, edit);
      }
    } else {
      var k := SomePassUnread(env, fileType, storageKey, edit);
      var text := TellingText(env, CleanTimes(env, k + 1, edit));
      AnotherText(env, fileType, storageKey, k, edit, text);
      NotSafe(Reading(env, Some(text)), env, fileType, storageKey, k + 1, edit);
    }
  }
}
