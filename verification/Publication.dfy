/** Publication of a torrent's file manifest: batches are staged under the next version and become
    visible together, whatever earlier attempts left behind. */
module Publication {
  import opened Wrappers
  import opened Numbers


  /** A file as the client reports it. */
  datatype Listed = Listed(index: nat, name: string, size: nat)

  datatype FileRow = FileRow(name: string, size: nat, available: bool)

  /** Manifest version and ordinal. */
  type Key = (nat, nat)

  type Files = map<Key, FileRow>

  datatype ManifestState = Missing | Loading | Loaded | Stale

  datatype LoadError = MissingSource | Range | NonContiguous(expected: nat, actual: nat) | Unparsed | FileCountChanged | Interrupted

  // ----- What a reader sees -----

  datatype Content = Content(name: string, size: nat)

  /** The available files, with their versions and ordinals. */
  function Visible(files: Files): map<Key, Content> {
    map k | k in files && files[k].available :: Content(files[k].name, files[k].size)
  }

  /** The list received, under a version. */
  function Published(reply: seq<Listed>, version: nat): map<Key, Content> {
    map i: nat | i < |reply| :: (version, i) := Content(reply[i].name, reply[i].size)
  }

  /** Whatever is available belongs to the published version. */
  ghost predicate Atomic(files: Files, version: nat) {
    forall k :: k in files && files[k].available ==> k.0 == version
  }

  // ----- Each transaction -----

  function Hide(files: Files, version: nat): Files {
    map k | k in files :: if k.0 == version then files[k].(available := false) else files[k]
  }

  function StageOne(files: Files, version: nat, file: Listed): Files {
    files[(version, file.index) := FileRow(file.name, file.size, false)]
  }

  function Stage(files: Files, version: nat, batch: seq<Listed>): Files {
    if batch == [] then files else StageOne(Stage(files, version, batch[..|batch| - 1]), version, batch[|batch| - 1])
  }

  function Publish(files: Files, version: nat, count: nat): Files {
    map k | k in files :: files[k].(available := k.0 == version && k.1 < count)
  }

  /** The first n files received are staged, hidden, under a version. */
  ghost predicate Staged(files: Files, version: nat, reply: seq<Listed>, n: nat)
    requires n <= |reply|
  {
    forall i :: 0 <= i < n ==> (version, i) in files && files[(version, i)] == FileRow(reply[i].name, reply[i].size, false)
  }

  ghost predicate Contiguous(reply: seq<Listed>, n: nat)
    requires n <= |reply|
  {
    forall i :: 0 <= i < n ==> reply[i].index == i
  }

  predicate Sizeable(files: seq<Listed>) {
    forall i :: 0 <= i < |files| ==> files[i].size <= I64_MAX
  }

  /** Staging changes no row of another version, and nothing that is visible. */
  lemma {:induction false} StageKeeps(files: Files, version: nat, batch: seq<Listed>)
    requires forall k :: k in files && k.0 == version ==> !files[k].available
    ensures forall k :: k in files ==> k in Stage(files, version, batch)
    ensures forall k :: k in Stage(files, version, batch) && k.0 != version ==> k in files && Stage(files, version, batch)[k] == files[k]
    ensures forall k :: k in Stage(files, version, batch) && k.0 == version ==> !Stage(files, version, batch)[k].available
    ensures Visible(Stage(files, version, batch)) == Visible(files)
    decreases |batch|
  {
    if batch != [] {
      StageKeeps(files, version, batch[..|batch| - 1]);
    }
  }

  lemma {:induction false} StageLists(files: Files, version: nat, reply: seq<Listed>, n: nat, m: nat)
    requires n <= m <= |reply| && Contiguous(reply, m) && Staged(files, version, reply, n)
    ensures Staged(Stage(files, version, reply[n..m]), version, reply, m)
    decreases m - n
  {
    if n < m {
      StageLists(files, version, reply, n, m - 1);
      assert reply[n..m][..m - n - 1] == reply[n..m - 1] && reply[n..m][m - n - 1] == reply[m - 1];
      StageOneMore(Stage(files, version, reply[n..m - 1]), version, reply, m - 1);
    } else {
      assert reply[n..m] == [];
    }
  }

  lemma StageOneMore(files: Files, version: nat, reply: seq<Listed>, n: nat)
    requires n < |reply| && Staged(files, version, reply, n) && reply[n].index == n
    ensures Staged(StageOne(files, version, reply[n]), version, reply, n + 1)
  {
  }

  /** Publishing a staged list shows exactly that list, whatever else was staged before. */
  lemma PublishShows(files: Files, version: nat, reply: seq<Listed>)
    requires Staged(files, version, reply, |reply|)
    ensures Visible(Publish(files, version, |reply|)) == Published(reply, version)
    ensures Atomic(Publish(files, version, |reply|), version)
  {
    var files' := Publish(files, version, |reply|);
    forall k | k in Published(reply, version) ensures k in Visible(files') {
      assert k.0 == version && k.1 < |reply|;
      assert (version, k.1) in files;
    }
    forall k | k in Visible(files') ensures k in Published(reply, version) && Visible(files')[k] == Published(reply, version)[k] {
      assert k == (version, k.1);
      assert files[(version, k.1)] == FileRow(reply[k.1].name, reply[k.1].size, false);
    }
  }

  /** The manifest of one torrent. Each method is one transaction; after `budget` more of them the
      process crashes. */
  class Manifest {
    var present: bool
    var version: nat
    var state: ManifestState
    var files: Files
    var budget: nat

    ghost predicate Valid()
      reads this
    {
      Atomic(files, version)
    }

    method Prepare() returns (r: Result<nat, LoadError>)
      requires Valid()
      modifies this
      ensures Valid() && present == old(present) && version == old(version) && Visible(files) == old(Visible(files))
      ensures r == if old(budget) == 0 then Failure(Interrupted) else if !old(present) then Failure(MissingSource) else Success(version + 1)
      ensures r.Success? ==> state == Loading && budget == old(budget) - 1 && forall k :: k in files && k.0 == version + 1 ==> !files[k].available
      ensures r.Failure? ==> state == old(state) && files == old(files) && budget == old(budget)
    {
      if budget == 0 {
        return Failure(Interrupted);
      }
      if !present {
        return Failure(MissingSource);
      }
      state := Loading;
      files := Hide(files, version + 1);
      budget := budget - 1;
      return Success(version + 1);
    }

    method Project(target: nat, batch: seq<Listed>) returns (r: Result<(), LoadError>)
      requires Valid()
      modifies this`files, this`budget
      ensures r == if old(budget) == 0 then Failure(Interrupted) else if !Sizeable(batch) then Failure(Range) else Success(())
      ensures files == if r.Success? then Stage(old(files), target, batch) else old(files)
      ensures budget == if r.Success? then old(budget) - 1 else old(budget)
    {
      if budget == 0 {
        return Failure(Interrupted);
      }
      var staged := files;
      for k := 0 to |batch|
        invariant staged == Stage(files, target, batch[..k]) && forall j :: 0 <= j < k ==> batch[j].size <= I64_MAX
      {
        if batch[k].size > I64_MAX {
          return Failure(Range);
        }
        staged := StageOne(staged, target, batch[k]);
        assert batch[..k + 1][..k] == batch[..k];
      }
      assert batch[..|batch|] == batch;
      files, budget := staged, budget - 1;
      return Success(());
    }

    method Finish(target: nat, count: nat) returns (r: Result<(), LoadError>)
      modifies this
      ensures present == old(present)
      ensures r == if old(budget) == 0 then Failure(Interrupted) else Success(())
      ensures r.Success? ==> files == Publish(old(files), target, count) && version == target && state == Loaded && budget == old(budget) - 1
      ensures r.Failure? ==> files == old(files) && version == old(version) && state == old(state) && budget == old(budget)
    {
      if budget == 0 {
        return Failure(Interrupted);
      }
      files := Publish(files, target, count);
      version, state, budget := target, Loaded, budget - 1;
      return Success(());
    }

    /** Loads a manifest from the files the client's reply yields one by one; `parsed` is how many
        the parser counted, if it reached the end. */
    method LoadInner(reply: seq<Listed>, parsed: Option<nat>, batchSize: nat) returns (r: Result<nat, LoadError>)
      requires Valid() && batchSize > 0
      modifies this
      ensures Valid() && present == old(present)
      ensures r.Success? ==>
        && r.value == |reply| && Contiguous(reply, |reply|) && parsed == Some(|reply|)
        && version == old(version) + 1 && state == Loaded && Visible(files) == Published(reply, version)
      ensures r.Failure? ==> version == old(version) && Visible(files) == old(Visible(files))
      ensures old(present) && old(budget) >= |reply| + 2 && Contiguous(reply, |reply|) && Sizeable(reply) && parsed == Some(|reply|) ==> r.Success?
    {
      hide Visible, Atomic, Stage, Publish, Sizeable, Staged, Staging, Published;
      var prepared := Prepare();
      if prepared.Failure? {
        return Failure(prepared.error);
      }
      var target := prepared.value;
      var batch: seq<Listed>, count: nat := [], 0;
      ghost var begun := budget;
      StagingBegins(files, version, reply);
      while count < |reply|
        invariant count <= |reply| && |batch| <= count && |batch| < batchSize && batch == reply[count - |batch|..count]
        invariant Contiguous(reply, count) && Staging(files, version, reply, count - |batch|)
        invariant Valid() && present == old(present) && version == old(version) && target == version + 1
        invariant Visible(files) == old(Visible(files))
        invariant budget + count >= begun + |batch|
      {
        if reply[count].index != count {
          return Failure(NonContiguous(count, reply[count].index));
        }
        batch := batch + [reply[count]];
        count := count + 1;
        assert batch == reply[count - |batch|..count];
        if |batch| == batchSize {
          StagingIsSafe(files, version, reply, count - |batch|, count);
          SizeableSlice(reply, count - |batch|, count);
          var projected := Project(target, batch);
          if projected.Failure? {
            return Failure(projected.error);
          }
          batch := [];
        }
      }
      if batch != [] {
        StagingIsSafe(files, version, reply, count - |batch|, count);
        SizeableSlice(reply, count - |batch|, count);
        var projected := Project(target, batch);
        if projected.Failure? {
          return Failure(projected.error);
        }
      }
      if parsed == None {
        return Failure(Unparsed);
      }
      if parsed.value != count {
        return Failure(FileCountChanged);
      }
      StagingPublishes(files, version, reply);
      var finished := Finish(target, count);
      if finished.Failure? {
        return Failure(finished.error);
      }
      return Success(count);
    }

    /** A failed load marks the manifest stale; an interrupted one cannot. Either way nothing a
        reader sees has changed. */
    method Load(reply: seq<Listed>, parsed: Option<nat>, batchSize: nat) returns (r: Result<nat, LoadError>)
      requires Valid() && batchSize > 0
      modifies this
      ensures Valid()
      ensures r.Success? ==>
        && r.value == |reply| && Contiguous(reply, |reply|) && parsed == Some(|reply|)
        && version == old(version) + 1 && state == Loaded && Visible(files) == Published(reply, version)
      ensures r.Failure? ==> version == old(version) && Visible(files) == old(Visible(files))
      ensures r.Failure? && r.error != Interrupted && budget > 0 ==> state == Stale
      ensures old(present) && old(budget) >= |reply| + 2 && Contiguous(reply, |reply|) && Sizeable(reply) && parsed == Some(|reply|) ==> r.Success?
    {
      r := LoadInner(reply, parsed, batchSize);
      if r.Failure? && budget > 0 {
        state := Stale;
      }
    }
  }

  lemma SizeableSlice(reply: seq<Listed>, n: nat, m: nat)
    requires n <= m <= |reply|
    ensures Sizeable(reply) ==> Sizeable(reply[n..m])
  {
  }

  /** The first n files received are staged, and what readers see is the published version. */
  ghost predicate Staging(files: Files, version: nat, reply: seq<Listed>, n: nat) {
    && n <= |reply| && Atomic(files, version) && Staged(files, version + 1, reply, n)
    && forall k :: k in files && k.0 == version + 1 ==> !files[k].available
  }

  lemma StagingBegins(files: Files, version: nat, reply: seq<Listed>)
    requires Atomic(files, version) && forall k :: k in files && k.0 == version + 1 ==> !files[k].available
    ensures Staging(files, version, reply, 0)
  {
  }

  lemma StagingPublishes(files: Files, version: nat, reply: seq<Listed>)
    requires Staging(files, version, reply, |reply|)
    ensures Visible(Publish(files, version + 1, |reply|)) == Published(reply, version + 1)
    ensures Atomic(Publish(files, version + 1, |reply|), version + 1)
  {
    PublishShows(files, version + 1, reply);
  }

  lemma StagingIsSafe(files: Files, version: nat, reply: seq<Listed>, n: nat, m: nat)
    requires n <= m <= |reply| && Contiguous(reply, m) && Staging(files, version, reply, n)
    ensures var staged := Stage(files, version + 1, reply[n..m]);
      Staging(staged, version, reply, m) && Visible(staged) == Visible(files) && Atomic(staged, version)
  {
    hide Visible;
    StageKeeps(files, version + 1, reply[n..m]);
    StageLists(files, version + 1, reply, n, m);
  }
}
