/**
  Moving the entries of a debt index into one file per component, and replaying a change that was made to
  the index before the move onto those files.
 */
module DebtSplit {
  import opened Options
  import opened Lists
  import DebtText
  import opened DebtFiles
  import opened ReplayState
  import opened DebtReplay
  import opened DebtOriginals
  import opened DebtExchange
  import opened ReplayBalance

  // ----- the end of a replay, in texts

  lemma {:induction false} PickTexts(c: Plan, s: State, k: Key, n: nat)
    requires |c.originals| == |c.before| && n <= |c.after| == |s.resolved|
    requires forall y :: 0 <= y < n && c.after[y].key == k ==>
               s.resolved[y] in s.texts && s.texts[s.resolved[y]] == c.relink(c.after[y].item, k.name)
    ensures forall e :: e in Pick(c.after, s.resolved, k, 0, n, {}) ==> e in s.texts
    ensures Texts(Pick(c.after, s.resolved, k, 0, n, {}), s.texts) == Filed(c.after[..n], c.relink, k)
  {
    if n > 0 {
      PickTexts(c, s, k, n - 1);
      assert c.after[..n][..n - 1] == c.after[..n - 1];
    }
  }

  lemma {:induction false} EndMine(c: Plan, s: State, k: Key)
    requires Sound(c, s) && InSync(c, s, |c.before|, |c.after|) && k.name in c.touched
    ensures forall e :: e in Sift(At(s.files, k), s.mine, true) ==> e in s.texts
    ensures Texts(Sift(At(s.files, k), s.mine, true), s.texts) == Filed(c.after, c.relink, k)
    ensures Sift(At(s.files, k), s.mine, false) == At(c.others, k)
  {
    hide Sift, Filed;
    assert Tracked(c, s, |c.before|, {}, |c.after|, {}, k);
    PickTexts(c, s, k, |c.after|);
    assert c.after[..|c.after|] == c.after;
  }

  /** The file of k at the end: the entries of the new index, with the other entries between them. */
  lemma {:induction false} EndTexts(c: Plan, s: State, k: Key)
    requires Sound(c, s) && InSync(c, s, |c.before|, |c.after|) && k.name in c.touched
    requires forall e :: e in At(s.files, k) ==> e in s.texts
    requires forall e :: e in At(c.others, k) ==> e in c.firstTexts
    ensures Interleaves(Texts(At(s.files, k), s.texts), Filed(c.after, c.relink, k),
        Texts(At(c.others, k), c.firstTexts))
  {
    EndMine(c, s, k);
    TextsInterleave(At(s.files, k), s.texts, s.mine);
    SiftMembers(At(s.files, k), s.mine, false);
    SameTexts(At(c.others, k), c.firstTexts, s.texts);
  }

  lemma {:induction false} FiledConcat(a: seq<Keyed>, b: seq<Keyed>, relink: Relink, k: Key)
    ensures Filed(a + b, relink, k) == Filed(a, relink, k) + Filed(b, relink, k)
  {
    if b == [] {
      assert a + b == a;
    } else {
      assert (a + b)[..|a + b| - 1] == a + b[..|b| - 1];
      FiledConcat(a, b[..|b| - 1], relink, k);
    }
  }

  lemma {:induction false} FiledNothing(a: seq<Keyed>, relink: Relink, k: Key)
    requires forall e :: e in a ==> e.key != k
    ensures Filed(a, relink, k) == []
  {
    if a != [] { FiledNothing(a[..|a| - 1], relink, k); }
  }

  /** A component the change does not touch is filed the same before and after it. */
  lemma {:induction false} UntouchedIsTheSame(ops: seq<Op>, before: seq<Keyed>, after: seq<Keyed>, relink: Relink,
                                              i: nat, j: nat, k: Key)
    requires Covers(ops, before, after, i, j) && i <= |before| && j <= |after|
    requires k.name !in Touched(ops, before, after, i, j)
    ensures Filed(before[i..], relink, k) == Filed(after[j..], relink, k)
    decreases |ops|
  {
    if ops != [] {
      var op := ops[0];
      UntouchedIsTheSame(ops[1..], before, after, relink, op.i2, op.j2, k);
      assert before[i..] == before[i..op.i2] + before[op.i2..];
      assert after[j..] == after[j..op.j2] + after[op.j2..];
      FiledConcat(before[i..op.i2], before[op.i2..], relink, k);
      FiledConcat(after[j..op.j2], after[op.j2..], relink, k);
      if !op.equal {
        var all := before[i..op.i2] + after[j..op.j2];
        assert forall e :: e in before[i..op.i2] || e in after[j..op.j2] ==> e in all && e.key.name in Names(all);
        FiledNothing(before[i..op.i2], relink, k);
        FiledNothing(after[j..op.j2], relink, k);
      }
    }
  }

  // ----- the files as a whole

  /** Loads the files of the given components. */
  method Load(disk: Files, names: set<string>) returns (files: Board, ghost texts: map<Ref, Text>)
    ensures files.Keys == set k | k in disk && k.name in names
    ensures Loaded(files, texts)
    ensures forall e :: e in texts ==> e != null && fresh(e) && e.text == texts[e]
    ensures forall k :: k in files ==> Texts(files[k], texts) == disk[k]
  {
    files, texts := map[], map[];
    var todo := set k | k in disk && k.name in names;
    while todo != {}
      invariant todo <= set k | k in disk && k.name in names
      invariant files.Keys == (set k | k in disk && k.name in names) - todo
      invariant Loaded(files, texts)
      invariant forall e :: e in texts ==> e != null && fresh(e) && e.text == texts[e]
      invariant forall k :: k in files ==> Texts(files[k], texts) == disk[k]
    {
      var k :| k in todo;
      ghost var was := files;
      var entries;
      entries, texts := LoadEntries(disk[k], texts);
      files := files[k := entries];
      forall l | l in was ensures Texts(files[l], texts) == disk[l] {
        assert files[l] == was[l];
      }
      todo := todo - {k};
    }
  }

  method LoadEntries(lines: seq<Text>, ghost texts: map<Ref, Text>)
    returns (entries: seq<Ref>, ghost texts': map<Ref, Text>)
    requires null !in texts && forall e :: e in texts ==> e.text == texts[e]
    ensures texts'.Keys == texts.Keys + (set e | e in entries) && forall e :: e in texts ==> texts'[e] == texts[e]
    ensures null !in texts' && forall e :: e in texts' ==> e.text == texts'[e]
    ensures Distinct(entries) && forall e :: e in entries ==> fresh(e) && e !in texts
    ensures Texts(entries, texts') == lines
  {
    entries, texts' := [], texts;
    for n := 0 to |lines|
      invariant texts'.Keys == texts.Keys + (set e | e in entries) && forall e :: e in texts ==> texts'[e] == texts[e]
      invariant null !in texts' && forall e :: e in texts' ==> e.text == texts'[e]
      invariant Distinct(entries) && forall e :: e in entries ==> fresh(e) && e !in texts
      invariant Texts(entries, texts') == lines[..n]
    {
      var entry := new Entry(lines[n]);
      ghost var was := texts';
      texts' := texts'[entry := lines[n]];
      assert Texts(entries, texts') == Texts(entries, was);
      assert Texts(entries + [entry], texts') == Texts(entries, texts') + [lines[n]];
      entries := entries + [entry];
    }
  }

  method ReadTexts(l: seq<Ref>, ghost texts: map<Ref, Text>) returns (lines: seq<Text>)
    requires null !in texts && forall e :: e in l ==> e in texts && e.text == texts[e]
    ensures lines == Texts(l, texts)
  {
    lines := [];
    for n := 0 to |l|
      invariant lines == Texts(l, texts)[..n]
    {
      assert l[n] in l;
      lines := lines + [l[n].text];
    }
  }

  /** Writes the loaded files back; a section without entries is not written. */
  method Save(disk: Files, names: set<string>, files: Board, ghost texts: map<Ref, Text>) returns (out: Files)
    requires null !in texts && forall k, e :: k in files && e in files[k] ==> e in texts && e.text == texts[e]
    requires forall k :: k in files ==> k.name in names
    ensures forall k :: k in files ==> TextsAt(out, k) == Texts(files[k], texts)
    ensures forall k: Key :: k !in files && k.name in names ==> TextsAt(out, k) == []
    ensures forall k: Key :: k.name !in names ==> TextsAt(out, k) == TextsAt(disk, k)
  {
    out := map k | k in disk && k.name !in names :: disk[k];
    var todo := files.Keys;
    while todo != {}
      invariant todo <= files.Keys
      invariant forall k :: k in files && k !in todo ==> TextsAt(out, k) == Texts(files[k], texts)
      invariant forall k: Key :: k.name in names && (k !in files || k in todo) ==> k !in out
      invariant forall k: Key :: k.name !in names ==> TextsAt(out, k) == TextsAt(disk, k)
    {
      var k :| k in todo;
      var lines := ReadTexts(files[k], texts);
      if lines != [] {
        out := out[k := lines];
      }
      todo := todo - {k};
    }
  }

  /** Some changed stretch has an old entry that the files hold too few copies of. */
  ghost predicate SomeMissing(ops: seq<Op>, disk: Files, before: seq<Keyed>, relink: Relink) {
    ops != [] &&
    ((!ops[0].equal && exists x :: ops[0].i1 <= x < ops[0].i2 && x < |before| && Missing(disk, before, relink, x))
     || SomeMissing(ops[1..], disk, before, relink))
  }

  lemma {:induction false} FoundUnlessMissing(ops: seq<Op>, before: seq<Keyed>, after: seq<Keyed>, relink: Relink,
                                              disk: Files, originals: seq<Ref>, names: set<string>, i: nat, j: nat)
    requires Covers(ops, before, after, i, j) && Touched(ops, before, after, i, j) <= names && |originals| == |before|
    requires forall a {:trigger Missing(disk, before, relink, a)} ::
        0 <= a < |before| && before[a].key.name in names ==>
               (originals[a] == null <==> Missing(disk, before, relink, a))
    ensures AllFound(ops, originals) <==> !SomeMissing(ops, disk, before, relink)
    decreases |ops|
  {
    if ops != [] {
      var op := ops[0];
      FoundUnlessMissing(ops[1..], before, after, relink, disk, originals, names, op.i2, op.j2);
      if !op.equal {
        NamesOf(before, after, i, op.i2, j, op.j2);
        assert forall x :: i <= x < op.i2 ==> (originals[x] == null <==> Missing(disk, before, relink, x));
      }
    }
  }

  /** The files hold the index's entries of every changed component, in the index's order, and maybe others. */
  ghost predicate CanReplay(ops: seq<Op>, disk: Files, before: seq<Keyed>, after: seq<Keyed>, relink: Relink)
    requires Covers(ops, before, after, 0, 0)
  {
    forall k: Key :: k.name in Touched(ops, before, after, 0, 0) ==> Replayable(disk, before, relink, k)
  }

  /** The lines of k that are not the index's. */
  ghost function Others(disk: Files, before: seq<Keyed>, relink: Relink, k: Key): seq<Text> {
    Sift(TextsAt(disk, k), TextSet(Filed(before, relink, k)), false)
  }

  /** What the plan and the first state of a replay are made of. */
  ghost predicate Opening(disk: Files, c: Plan, s: State) {
    && Loaded(s.files, s.texts) && |c.originals| == |c.before| && s.resolved == seq(|c.after|, _ => null)
    && Assigned(c.before, c.relink, s.files, s.texts, c.originals)
    && s.files.Keys == (set k | k in disk && k.name in c.touched)
    && (forall k, e :: k in s.files && e in s.files[k] ==> e in s.texts)
    && (forall k :: k in s.files ==> Texts(s.files[k], s.texts) == disk[k])
    && s.mine == (set o | o in c.originals && o != null)
    && c.others == (map k | k in s.files :: Sift(s.files[k], s.mine, false))
    && c.firstFiles == s.files && c.firstTexts == s.texts
  }

  /** A replay starts settled: no entry is changed. */
  lemma {:induction false} OpeningSettles(disk: Files, c: Plan, s: State)
    requires Opening(disk, c, s)
    ensures Settled(c, s, {}, {})
  {
    forall a | 0 <= a < |c.before| && c.originals[a] != null
      ensures c.originals[a] in At(s.files, c.before[a].key) && c.originals[a] in s.texts
      ensures s.texts[c.originals[a]] == c.relink(c.before[a].item, c.before[a].key.name)
    {
      assert AssignedAt(c.before, c.relink, s.files, s.texts, a, c.originals[a]);
      AssignedIsFiled(c.before, c.relink, s.files, s.texts, a, c.originals[a]);
    }
    OpeningSound(disk, c, s);
    StartSettles(c, s);
  }

  /** Whatever the files hold, a replay exchanges the changed old texts of each file for the changed new ones. */
  ghost predicate AllExchanged(ops: seq<Op>, disk: Files, out: Files, before: seq<Keyed>, after: seq<Keyed>,
                               relink: Relink, names: set<string>) {
    forall k: Key :: k.name in names ==>
      Exchanged(TextsAt(disk, k), TextsAt(out, k), OldTexts(ops, before, relink, k), NewTexts(ops, after, relink, k))
  }

  lemma {:induction false} EndExchanged(ops: seq<Op>, disk: Files, c: Plan, s: State, end: State, out: Files)
    requires Opening(disk, c, s) && Covers(ops, c.before, c.after, 0, 0)
    requires Settled(c, end, OldPlaces(ops), NewPlaces(ops))
    requires forall k ::
        k in end.files ==>
            (forall e :: e in end.files[k] ==> e in end.texts) && TextsAt(out, k) == Texts(end.files[k], end.texts)
    requires forall k: Key :: k !in end.files && k.name in c.touched ==> TextsAt(out, k) == []
    ensures AllExchanged(ops, disk, out, c.before, c.after, c.relink, c.touched)
  {
    forall k: Key | k.name in c.touched
      ensures Exchanged(TextsAt(disk, k), TextsAt(out, k), OldTexts(ops, c.before, c.relink, k),
                        NewTexts(ops, c.after, c.relink, k))
    {
      hide Settled, Exchanged, OldTexts, NewTexts, Among, Covers, Opening, Texts;
      OpeningAt(disk, c, s, k);
      OpeningFirst(disk, c, s);
      ReplayExchanges(c, end, OldPlaces(ops), NewPlaces(ops), k);
      AmongPlaces(ops, c.before, c.after, c.relink, k, 0, 0, OldPlaces(ops), NewPlaces(ops));
      NoTexts(end.texts);
      assert TextsAt(out, k) == Texts(At(end.files, k), end.texts);
    }
  }

  lemma {:induction false} OpeningFirst(disk: Files, c: Plan, s: State)
    requires Opening(disk, c, s)
    ensures c.firstFiles == s.files && c.firstTexts == s.texts && s.resolved == seq(|c.after|, _ => null)
  {
  }

  lemma {:induction false} NoTexts(texts: map<Ref, Text>)
    ensures Texts([], texts) == []
  {
  }

  lemma {:induction false} OpeningSound(disk: Files, c: Plan, s: State)
    requires Opening(disk, c, s)
    ensures Sound(c, s) && Waiting(c, s, 0, {})
  {
    forall a | 0 <= a < |c.before| && c.originals[a] != null
      ensures c.originals[a] in s.texts && c.originals[a] in At(s.files, c.before[a].key)
    {
      assert AssignedAt(c.before, c.relink, s.files, s.texts, a, c.originals[a]);
      AssignedIsFiled(c.before, c.relink, s.files, s.texts, a, c.originals[a]);
    }
    forall a, b | 0 <= a < b < |c.before| && c.originals[a] != null ensures c.originals[a] != c.originals[b] {
      assert AssignedAt(c.before, c.relink, s.files, s.texts, a, c.originals[a]);
      assert AssignedAt(c.before, c.relink, s.files, s.texts, b, c.originals[b]);
      AssignedOnce(c.before, c.relink, s.files, s.texts, a, b, c.originals[a]);
    }
  }

  lemma {:induction false} OpeningAt(disk: Files, c: Plan, s: State, k: Key)
    requires Opening(disk, c, s) && k.name in c.touched
    ensures forall e :: e in At(s.files, k) ==> e in s.texts
    ensures Texts(At(s.files, k), s.texts) == TextsAt(disk, k)
    ensures At(c.others, k) == Sift(At(s.files, k), s.mine, false)
  {
  }

  lemma {:induction false} OpeningMissing(disk: Files, c: Plan, s: State, a: nat)
    requires Opening(disk, c, s) && a < |c.before| && c.before[a].key.name in c.touched
    ensures c.originals[a] == null <==> Missing(disk, c.before, c.relink, a)
  {
    OpeningAt(disk, c, s, c.before[a].key);
    assert AssignedAt(c.before, c.relink, s.files, s.texts, a, c.originals[a]);
    AssignedMissing(disk, c.before, c.relink, s.files, s.texts, a, c.originals[a]);
  }

  lemma {:induction false} OpeningInSync(disk: Files, c: Plan, s: State)
    requires Opening(disk, c, s)
    requires forall k: Key :: k.name in c.touched ==> Replayable(disk, c.before, c.relink, k)
    ensures InSync(c, s, 0, 0)
    ensures forall k: Key :: k.name in c.touched ==>
              (forall e :: e in At(c.others, k) ==> e in c.firstTexts)
              && Texts(At(c.others, k), c.firstTexts) == Others(disk, c.before, c.relink, k)
  {
    forall k: Key | k.name in c.touched
      ensures Tracked(c, s, 0, {}, 0, {}, k)
      ensures forall a :: 0 <= a < |c.before| && c.before[a].key == k ==> c.originals[a] != null
      ensures forall e :: e in At(c.others, k) ==> e in c.firstTexts
      ensures Texts(At(c.others, k), c.firstTexts) == Others(disk, c.before, c.relink, k)
    {
      OpeningAt(disk, c, s, k);
      StartTracked(disk, c, s, k);
    }
    forall a | 0 <= a < |c.before| && c.before[a].key.name in c.touched
      ensures c.originals[a] != null
    {
      var k := c.before[a].key;
      assert Tracked(c, s, 0, {}, 0, {}, k);
    }
    forall a | 0 <= a < |c.before| && c.before[a].key.name in c.touched
      ensures c.originals[a] in s.texts && s.texts[c.originals[a]] == c.relink(c.before[a].item, c.before[a].key.name)
    {
      assert AssignedAt(c.before, c.relink, s.files, s.texts, a, c.originals[a]);
      AssignedIsFiled(c.before, c.relink, s.files, s.texts, a, c.originals[a]);
    }
  }

  lemma {:induction false} Ending(ops: seq<Op>, disk: Files, c: Plan, s: State, end: State, out: Files)
    requires Opening(disk, c, s) && Covers(ops, c.before, c.after, 0, 0)
        && c.touched == Touched(ops, c.before, c.after, 0, 0)
    requires CanReplay(ops, disk, c.before, c.after, c.relink)
    requires Sound(c, end) && InSync(c, end, |c.before|, |c.after|)
    requires forall k ::
        k in end.files ==>
            (forall e :: e in end.files[k] ==> e in end.texts) && TextsAt(out, k) == Texts(end.files[k], end.texts)
    requires forall k: Key :: k !in end.files && k.name in c.touched ==> TextsAt(out, k) == []
    ensures forall k: Key :: k.name in c.touched ==>
              Interleaves(TextsAt(out, k), Filed(c.after, c.relink, k), Others(disk, c.before, c.relink, k))
  {
    hide Sound, InSync, Opening, Covers, Touched, Texts, Filed, Others, Replayable, Interleaves;
    OpeningInSync(disk, c, s);
    forall k: Key | k.name in c.touched
      ensures Interleaves(TextsAt(out, k), Filed(c.after, c.relink, k), Others(disk, c.before, c.relink, k))
    {
      EndTexts(c, end, k);
      NoTexts(end.texts);
      assert TextsAt(out, k) == Texts(At(end.files, k), end.texts);
    }
  }

  lemma {:induction false} Beginning(ops: seq<Op>, disk: Files, c: Plan, s: State)
    requires Opening(disk, c, s) && Covers(ops, c.before, c.after, 0, 0)
        && c.touched == Touched(ops, c.before, c.after, 0, 0)
    ensures Sound(c, s) && Waiting(c, s, 0, {})
    ensures CanReplay(ops, disk, c.before, c.after, c.relink) ==> InSync(c, s, 0, 0)
  {
    OpeningSound(disk, c, s);
    if CanReplay(ops, disk, c.before, c.after, c.relink) {
      OpeningInSync(disk, c, s);
    }
  }

  /** Replays the script on the loaded files, and reads them back unless an original is missing. */
  method ReplayLoaded(disk: Files, before: seq<Keyed>, after: seq<Keyed>, ops: seq<Op>, relink: Relink,
                      originals: seq<Ref>, files: Board, names: set<string>, ghost c: Plan, ghost s: State)
    returns (ok: bool, out: Files)
    requires Covers(ops, before, after, 0, 0) && c.touched == names == Touched(ops, before, after, 0, 0)
    requires c.before == before && c.after == after && c.relink == relink && c.originals == originals
        && s.files == files
    requires Opening(disk, c, s) && forall e :: e in s.texts ==> e != null && e.text == s.texts[e]
    modifies set e: Entry | e in s.texts
    ensures ok <==> AllFound(ops, originals)
    ensures ok ==> forall k: Key :: k.name !in names ==> TextsAt(out, k) == TextsAt(disk, k)
    ensures ok ==> AllExchanged(ops, disk, out, before, after, relink, names)
    ensures ok && CanReplay(ops, disk, before, after, relink) ==>
              forall k: Key ::
                  k.name in names ==>
                      Interleaves(TextsAt(out, k), Filed(after, relink, k), Others(disk, before, relink, k))
  {
    hide Opening, InSync, Waiting, Settled, AllExchanged, AllFound, Others, Touched, Covers, CanReplay, Texts;
    ghost var good := CanReplay(ops, disk, before, after, relink);
    Beginning(ops, disk, c, s);
    OpeningFirst(disk, c, s);
    OpeningSettles(disk, c, s);
    var replay := new Replay(before, after, relink, originals, files, c, s);
    ok := replay.Run(ops, good);
    if !ok {
      return false, disk;
    }
    out := Save(disk, names, replay.files, replay.texts);
    EndExchanged(ops, disk, c, s, replay.Now(), out);
    if good {
      Ending(ops, disk, c, s, replay.Now(), out);
    }
  }

  /**
    Replays a change of the index, given as opcodes from its old to its new entries, onto the components'
    files. None stands for a LookupError.

    It fails exactly when a changed stretch has an old entry that its file holds too few copies of. Otherwise each
    touched file exchanges the changed old texts for the changed new ones, and keeps all others in their order. When the
    files hold the old index's entries, alone or among others, each file ends up with exactly the new index's
    entries, in order, and the others keep their order between them. The files of untouched components stay.
   */
  method ApplyChange(disk: Files, before: seq<Keyed>, after: seq<Keyed>, ops: seq<Op>, relink: Relink)
    returns (r: Option<Files>)
    requires Covers(ops, before, after, 0, 0)
    ensures r.None? <==> SomeMissing(ops, disk, before, relink)
    ensures r.Some? ==>
        forall k: Key :: k.name !in Touched(ops, before, after, 0, 0) ==> TextsAt(r.value, k) == TextsAt(disk, k)
    ensures r.Some? ==> AllExchanged(ops, disk, r.value, before, after, relink, Touched(ops, before, after, 0, 0))
    ensures r.Some? && CanReplay(ops, disk, before, after, relink) ==>
              forall k: Key :: k.name in Touched(ops, before, after, 0, 0) ==>
                Interleaves(TextsAt(r.value, k), Filed(after, relink, k), Others(disk, before, relink, k))
  {
    var names := Touched(ops, before, after, 0, 0);
    var files, texts := Load(disk, names);
    var originals := FindOriginals(before, relink, files, texts);
    ghost var mine := set o | o in originals && o != null;
    ghost var c := Plan(before, after, relink, names, originals, map k | k in files ::
        Sift(files[k], mine, false), files, texts);
    ghost var s := State(files, seq(|after|, _ => null), mine, texts);
    assert Opening(disk, c, s);
    forall a {:trigger Missing(disk, before, relink, a)} | 0 <= a < |before| && before[a].key.name in names
      ensures originals[a] == null <==> Missing(disk, before, relink, a)
    {
      OpeningMissing(disk, c, s, a);
    }
    FoundUnlessMissing(ops, before, after, relink, disk, originals, names, 0, 0);
    var ok, out := ReplayLoaded(disk, before, after, ops, relink, originals, files, names, c, s);
    r := if ok then Some(out) else None;
  }

  // ----- the commuting square

  /** The files hold what the split of the index files, and nothing else. */
  ghost predicate IsSplitOf(disk: Files, entries: seq<Keyed>, relink: Relink) {
    forall k: Key :: TextsAt(disk, k) == Filed(entries, relink, k)
  }

  lemma {:induction false} SplitReplayable(disk: Files, before: seq<Keyed>, relink: Relink, k: Key)
    requires TextsAt(disk, k) == Filed(before, relink, k)
    ensures Replayable(disk, before, relink, k) && Others(disk, before, relink, k) == []
  {
    var base := Filed(before, relink, k);
    SiftKeepsAll(base, TextSet(base), true);
    SiftDropsAll(base, TextSet(base), false);
  }

  lemma {:induction false} SplitNotMissing(disk: Files, before: seq<Keyed>, relink: Relink, a: nat)
    requires a < |before|
    requires multiset(Filed(before, relink, before[a].key)) <= multiset(TextsAt(disk, before[a].key))
    ensures !Missing(disk, before, relink, a)
  {
    var k, t := before[a].key, relink(before[a].item, before[a].key.name);
    FiledCount(before, a, relink, k, t);
    FiledCountGrows(before, a + 1, |before|, relink, k, t);
    assert before[..|before|] == before;
  }

  /** Files that hold the split of the touched components can be replayed onto, with nothing missing and no others. */
  lemma {:induction false} TouchedCanReplay(ops: seq<Op>, disk: Files, before: seq<Keyed>, after: seq<Keyed>,
                                            relink: Relink)
    requires Covers(ops, before, after, 0, 0)
    requires forall k: Key :: k.name in Touched(ops, before, after, 0, 0) ==>
               TextsAt(disk, k) == Filed(before, relink, k)
    ensures CanReplay(ops, disk, before, after, relink) && !SomeMissing(ops, disk, before, relink)
    ensures forall k: Key :: k.name in Touched(ops, before, after, 0, 0) ==> Others(disk, before, relink, k) == []
  {
    forall k: Key | k.name in Touched(ops, before, after, 0, 0)
      ensures Replayable(disk, before, relink, k) && Others(disk, before, relink, k) == []
    {
      SplitReplayable(disk, before, relink, k);
    }
    NoneMissing(ops, disk, before, after, relink, Touched(ops, before, after, 0, 0), 0, 0);
  }

  /** Files that come from the split can be replayed onto, with nothing missing. */
  lemma {:induction false} SplitCanReplay(ops: seq<Op>, disk: Files, before: seq<Keyed>, after: seq<Keyed>,
                                          relink: Relink)
    requires Covers(ops, before, after, 0, 0) && IsSplitOf(disk, before, relink)
    ensures CanReplay(ops, disk, before, after, relink)
    ensures !SomeMissing(ops, disk, before, relink)
  {
    TouchedCanReplay(ops, disk, before, after, relink);
  }

  lemma {:induction false} NoneMissing(ops: seq<Op>, disk: Files, before: seq<Keyed>, after: seq<Keyed>,
                                       relink: Relink, names: set<string>, i: nat, j: nat)
    requires Covers(ops, before, after, i, j) && Touched(ops, before, after, i, j) <= names
    requires forall k: Key :: k.name in names ==> multiset(Filed(before, relink, k)) <= multiset(TextsAt(disk, k))
    ensures !SomeMissing(ops, disk, before, relink)
    decreases |ops|
  {
    hide Missing, TextsAt, Filed;
    if ops != [] {
      var op := ops[0];
      NoneMissing(ops[1..], disk, before, after, relink, names, op.i2, op.j2);
      if !op.equal {
        NamesOf(before, after, i, op.i2, j, op.j2);
        forall x {:trigger Missing(disk, before, relink, x)} | i <= x < op.i2
          ensures !Missing(disk, before, relink, x)
        {
          SplitNotMissing(disk, before, relink, x);
        }
      }
    }
  }

  /** A file that holds what is filed after texts of its own, none of which is filed, can be replayed onto. */
  lemma {:induction false} AppendedReplayable(disk: Files, before: seq<Keyed>, relink: Relink, k: Key, own: seq<Text>)
    requires TextsAt(disk, k) == own + Filed(before, relink, k)
    requires forall t :: t in own ==> t !in Filed(before, relink, k)
    ensures Replayable(disk, before, relink, k) && Others(disk, before, relink, k) == own
  {
    var base := Filed(before, relink, k);
    var T := TextSet(base);
    SiftConcat(own, base, T, true);
    SiftConcat(own, base, T, false);
    SiftDropsAll(own, T, true);
    SiftKeepsAll(own, T, false);
    SiftKeepsAll(base, T, true);
    SiftDropsAll(base, T, false);
  }

  /** The entries of equal stretches are filed the same, so old and new index differ by the changed stretches. */
  lemma {:induction false} EqualsCancel(ops: seq<Op>, before: seq<Keyed>, after: seq<Keyed>, relink: Relink, i: nat,
                                        j: nat, k: Key)
    requires Covers(ops, before, after, i, j) && i <= |before| && j <= |after|
    ensures multiset(Filed(before[i..], relink, k)) + multiset(NewTexts(ops, after, relink, k))
        == multiset(Filed(after[j..], relink, k)) + multiset(OldTexts(ops, before, relink, k))
    decreases |ops|
  {
    hide Filed;
    if ops == [] {
      FiledNothing(before[i..], relink, k);
      FiledNothing(after[j..], relink, k);
    } else {
      var op := ops[0];
      EqualsCancel(ops[1..], before, after, relink, op.i2, op.j2, k);
      FiledFrom(before, relink, i, op.i2, k);
      FiledFrom(after, relink, j, op.j2, k);
      TextsNext(ops, before, after, relink, i, j, k);
      CancelsOn(op.equal, multiset(Filed(before[i..op.i2], relink, k)), multiset(Filed(after[j..op.j2], relink, k)),
          multiset(Filed(before[op.i2..], relink, k)), multiset(Filed(after[op.j2..], relink, k)),
          multiset(OldTexts(ops[1..], before, relink, k)), multiset(NewTexts(ops[1..], after, relink, k)));
    }
  }

  lemma {:induction false} CancelsOn(equal: bool, a: multiset<Text>, c: multiset<Text>, x: multiset<Text>,
                                     y: multiset<Text>, gone: multiset<Text>, come: multiset<Text>)
    requires x + come == y + gone && (equal ==> a == c)
    ensures if equal then (a + x) + come == (c + y) + gone else (a + x) + (c + come) == (c + y) + (a + gone)
  {
    if equal {
      assert (a + x) + come == a + (x + come) == a + (y + gone);
    } else {
      assert (a + x) + (c + come) == (a + c) + (x + come) == (a + c) + (y + gone);
    }
  }

  lemma {:induction false} TextsNext(ops: seq<Op>, before: seq<Keyed>, after: seq<Keyed>, relink: Relink, i: nat,
                                     j: nat, k: Key)
    requires Covers(ops, before, after, i, j) && ops != [] && i <= |before| && j <= |after|
    ensures i <= ops[0].i2 <= |before| && j <= ops[0].j2 <= |after|
    ensures ops[0].equal ==>
              && Filed(before[i..ops[0].i2], relink, k) == Filed(after[j..ops[0].j2], relink, k)
              && OldTexts(ops, before, relink, k) == OldTexts(ops[1..], before, relink, k)
              && NewTexts(ops, after, relink, k) == NewTexts(ops[1..], after, relink, k)
    ensures !ops[0].equal ==>
              && multiset(OldTexts(ops, before, relink, k))
                == multiset(Filed(before[i..ops[0].i2], relink, k)) + multiset(OldTexts(ops[1..], before, relink, k))
              && multiset(NewTexts(ops, after, relink, k))
                == multiset(Filed(after[j..ops[0].j2], relink, k)) + multiset(NewTexts(ops[1..], after, relink, k))
  {
    hide Filed;
  }

  lemma {:induction false} FiledFrom(es: seq<Keyed>, relink: Relink, lo: nat, hi: nat, k: Key)
    requires lo <= hi <= |es|
    ensures multiset(Filed(es[lo..], relink, k))
        == multiset(Filed(es[lo..hi], relink, k)) + multiset(Filed(es[hi..], relink, k))
  {
    hide Filed;
    assert es[lo..] == es[lo..hi] + es[hi..];
    FiledConcat(es[lo..hi], es[hi..], relink, k);
  }

  /** Where a file held what is filed after texts of its own, it now holds those and what is filed anew. */
  lemma {:induction false} AppendedBalance(ops: seq<Op>, before: seq<Keyed>, after: seq<Keyed>, relink: Relink, k: Key,
                                           own: seq<Text>, now: seq<Text>)
    requires Covers(ops, before, after, 0, 0)
    requires Exchanged(own + Filed(before, relink, k), now, OldTexts(ops, before, relink, k),
                       NewTexts(ops, after, relink, k))
    ensures multiset(now) == multiset(own) + multiset(Filed(after, relink, k))
  {
    hide Exchanged, Filed, OldTexts, NewTexts, Covers;
    var was := own + Filed(before, relink, k);
    ExchangedCounts(was, now, OldTexts(ops, before, relink, k), NewTexts(ops, after, relink, k));
    EqualsCancel(ops, before, after, relink, 0, 0, k);
    assert before[0..] == before && after[0..] == after;
    Cancels(multiset(now), multiset(own), multiset(Filed(before, relink, k)), multiset(Filed(after, relink, k)),
        multiset(OldTexts(ops, before, relink, k)), multiset(NewTexts(ops, after, relink, k)));
  }

  lemma {:induction false} Cancels(now: multiset<Text>, own: multiset<Text>, filed: multiset<Text>,
                                   filed': multiset<Text>, gone: multiset<Text>, come: multiset<Text>)
    requires now + gone == (own + filed) + come && filed + come == filed' + gone
    ensures now == own + filed'
  {
    assert (now + gone) - gone == now;
    assert ((own + filed') + gone) - gone == own + filed';
    assert (own + filed) + come == own + (filed + come) == own + (filed' + gone) == (own + filed') + gone;
  }

  /** What ApplyChange promises, on the files of the split of the old index, is the split of the new one. */
  lemma {:induction false} SquareCommutes(ops: seq<Op>, disk: Files, out: Files, before: seq<Keyed>, after: seq<Keyed>,
                                          relink: Relink)
    requires Covers(ops, before, after, 0, 0) && IsSplitOf(disk, before, relink)
    requires forall k: Key :: k.name !in Touched(ops, before, after, 0, 0) ==> TextsAt(out, k) == TextsAt(disk, k)
    requires forall k: Key :: k.name in Touched(ops, before, after, 0, 0) ==>
               Interleaves(TextsAt(out, k), Filed(after, relink, k), Others(disk, before, relink, k))
    ensures IsSplitOf(out, after, relink)
  {
    forall k: Key ensures TextsAt(out, k) == Filed(after, relink, k) {
      if k.name in Touched(ops, before, after, 0, 0) {
        SplitReplayable(disk, before, relink, k);
        InterleavesNothing(TextsAt(out, k), Filed(after, relink, k));
      } else {
        UntouchedIsTheSame(ops, before, after, relink, 0, 0, k);
        assert before[0..] == before && after[0..] == after;
      }
    }
  }

  type Item = DebtText.Item

  /** Which component an entry is about, if any. */
  type DebtName = Text -> Option<string>

  /** The component of an item: `debtName` of an entry, none for a heading or a line of text. */
  function NameOf(item: Item, debtName: DebtName): Option<string> {
    if item.kind == DebtText.Entry then debtName(item.lines) else None
  }

  /** The items with a component, as entries. */
  function KeyedItems(items: seq<Item>, debtName: DebtName): seq<Keyed> {
    if items == [] then []
    else
      var last := items[|items| - 1];
      KeyedItems(items[..|items| - 1], debtName)
      + match NameOf(last, debtName)
        case None => []
        case Some(name) => [Keyed(Key(name, last.section), last.lines)]
  }

  /** The items without one, which stay in the index. */
  function Unkeyed(items: seq<Item>, debtName: DebtName): seq<Item> {
    if items == [] then []
    else
      var last := items[|items| - 1];
      Unkeyed(items[..|items| - 1], debtName) + if NameOf(last, debtName).None? then [last] else []
  }

  /** The sections of the index as its headings come, in which the files list theirs. */
  function SectionsOf(items: seq<Item>): seq<string> {
    if items == [] then []
    else
      var last := items[|items| - 1];
      SectionsOf(items[..|items| - 1])
      + if last.kind == DebtText.Heading && last.section.Some? then [last.section.value] else []
  }

  lemma {:induction false} ItemsNext(items: seq<Item>, n: nat, debtName: DebtName)
    requires n < |items|
    ensures SectionsOf(items[..n + 1]) == SectionsOf(items[..n])
        + if items[n].kind == DebtText.Heading && items[n].section.Some? then [items[n].section.value] else []
    ensures match NameOf(items[n], debtName)
            case None =>
              Unkeyed(items[..n + 1], debtName) == Unkeyed(items[..n], debtName) + [items[n]]
              && KeyedItems(items[..n + 1], debtName) == KeyedItems(items[..n], debtName)
            case Some(name) =>
              Unkeyed(items[..n + 1], debtName) == Unkeyed(items[..n], debtName)
              && KeyedItems(items[..n + 1], debtName) == KeyedItems(items[..n], debtName)
                  + [Keyed(Key(name, items[n].section), items[n].lines)]
  {
    assert items[..n + 1][..n] == items[..n];
  }

  lemma {:induction false} SplitNext(files: Files, keyed: seq<Keyed>, e: Keyed, relink: Relink, files': Files)
    requires IsSplitOf(files, keyed, relink)
    requires files' == files[e.key := TextsAt(files, e.key) + [relink(e.item, e.key.name)]]
    ensures IsSplitOf(files', keyed + [e], relink)
  {
  }

  /** Every item goes either to the index or to the end of its section in its component's file. */
  method Split(items: seq<Item>, debtName: DebtName, relink: Relink)
    returns (index: seq<Item>, files: Files, order: seq<string>)
    ensures index == Unkeyed(items, debtName) && order == SectionsOf(items)
    ensures IsSplitOf(files, KeyedItems(items, debtName), relink) && forall k :: k in files ==> files[k] != []
  {
    index, files, order := [], map[], [];
    for n := 0 to |items|
      invariant order == SectionsOf(items[..n])
      invariant index == Unkeyed(items[..n], debtName) && forall k :: k in files ==> files[k] != []
      invariant IsSplitOf(files, KeyedItems(items[..n], debtName), relink)
    {
      ItemsNext(items, n, debtName);
      if items[n].kind == DebtText.Heading && items[n].section.Some? {
        order := order + [items[n].section.value];
      }
      match NameOf(items[n], debtName) {
        case None =>
          index := index + [items[n]];
        case Some(name) =>
          var k := Key(name, items[n].section);
          ghost var was := files;
          files := files[k := TextsAt(files, k) + [relink(items[n].lines, name)]];
          SplitNext(was, KeyedItems(items[..n], debtName), Keyed(k, items[n].lines), relink, files);
      }
    }
    assert items[..|items|] == items;
  }

  /** Splitting the old index and replaying the change is splitting the new one. */
  method SplitThenApply(oldItems: seq<Item>, newItems: seq<Item>, debtName: DebtName, ops: seq<Op>,
                        relink: Relink)
    returns (r: Option<Files>)
    requires Covers(ops, KeyedItems(oldItems, debtName), KeyedItems(newItems, debtName), 0, 0)
    ensures r.Some? && IsSplitOf(r.value, KeyedItems(newItems, debtName), relink)
  {
    var before, after := KeyedItems(oldItems, debtName), KeyedItems(newItems, debtName);
    var _, files, _ := Split(oldItems, debtName, relink);
    SplitCanReplay(ops, files, before, after, relink);
    r := ApplyChange(files, before, after, ops, relink);
    SquareCommutes(ops, files, r.value, before, after, relink);
  }
}
