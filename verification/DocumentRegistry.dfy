/**
  The registry of documents synchronized with one language server: at most 64
  of them, the least recently active one giving way to a new one.

  `Lru` is the registry as an ideal list from the least to the most recently
  active document, without ordinals; the class is the registry as it is stored.
 */
module DocumentRegistry {
  import opened Wrappers
  import opened Machine
  import opened Recency

  const MAX_SYNCHRONIZED_DOCUMENTS: nat := 64

  datatype SynchronizedDocument = SynchronizedDocument(
    editorId: nat, uri: string, version: nat, stateId: nat, savedStateId: Option<nat>, saveGeneration: nat)

  datatype InsertError = NonFileUri | DuplicateEditorId | DuplicateUri
  datatype InsertResult = Inserted(evicted: Option<SynchronizedDocument>, partial: bool) | Rejected(error: InsertError)

  // ---------------------------------------------------------------------------
  // The ideal list
  // ---------------------------------------------------------------------------

  datatype Lru = Lru(recent: seq<SynchronizedDocument>, active: Option<nat>, partial: bool, revision: nat)

  const EMPTY: Lru := Lru([], None, false, 0)

  function WithEditor(docs: seq<SynchronizedDocument>, id: nat): (r: Option<SynchronizedDocument>)
    ensures r.Some? ==> r.value in docs && r.value.editorId == id
    ensures r.None? ==> forall d <- docs :: d.editorId != id
  {
    if docs == [] then None
    else if docs[|docs| - 1].editorId == id then Some(docs[|docs| - 1])
    else WithEditor(docs[..|docs| - 1], id)
  }

  function WithUri(docs: seq<SynchronizedDocument>, uri: string): (r: Option<SynchronizedDocument>)
    ensures r.Some? ==> r.value in docs && r.value.uri == uri
    ensures r.None? ==> forall d <- docs :: d.uri != uri
  {
    if docs == [] then None
    else if docs[|docs| - 1].uri == uri then Some(docs[|docs| - 1])
    else WithUri(docs[..|docs| - 1], uri)
  }

  predicate Full(docs: seq<SynchronizedDocument>) { |docs| >= MAX_SYNCHRONIZED_DOCUMENTS }

  function Bump(revision: nat): nat { SaturatingNext(revision, U128_MAX) }

  function Refusal(v: Lru, d: SynchronizedDocument, isLocal: string -> bool): Option<InsertError> {
    if !isLocal(d.uri) then Some(NonFileUri)
    else if WithEditor(v.recent, d.editorId).Some? then Some(DuplicateEditorId)
    else if WithUri(v.recent, d.uri).Some? then Some(DuplicateUri)
    else None
  }

  /** At capacity the head gives way; the new document goes to the back and is active. */
  function Admit(v: Lru, d: SynchronizedDocument): Lru {
    if Full(v.recent)
    then Lru(v.recent[1..] + [d], Some(d.editorId), true, Bump(Bump(v.revision)))
    else Lru(v.recent + [d], Some(d.editorId), v.partial, Bump(v.revision))
  }

  function Insert(v: Lru, d: SynchronizedDocument, isLocal: string -> bool): Lru {
    if Refusal(v, d, isLocal).Some? then v else Admit(v, d)
  }

  function MarkActive(v: Lru, id: nat): Lru {
    match WithEditor(v.recent, id)
    case None => v
    case Some(d) => v.(recent := Without(v.recent, d) + [d], active := Some(id))
  }

  function Remove(v: Lru, found: Option<SynchronizedDocument>): Lru {
    match found
    case None => v
    case Some(d) =>
      Lru(Without(v.recent, d), if v.active == Some(d.editorId) then None else v.active, v.partial, Bump(v.revision))
  }

  function Changed(d: SynchronizedDocument, version: nat, stateId: nat, savedStateId: Option<nat>, saveGeneration: nat)
    : SynchronizedDocument
  {
    SynchronizedDocument(d.editorId, d.uri, version, stateId, savedStateId, saveGeneration)
  }

  function Replaced(docs: seq<SynchronizedDocument>, d: SynchronizedDocument, e: SynchronizedDocument)
    : (r: seq<SynchronizedDocument>)
    ensures |r| == |docs| && forall i | 0 <= i < |docs| :: r[i] == if docs[i] == d then e else docs[i]
  {
    seq(|docs|, i requires 0 <= i < |docs| => if docs[i] == d then e else docs[i])
  }

  function Update(v: Lru, id: nat, version: nat, stateId: nat, savedStateId: Option<nat>, saveGeneration: nat): Lru {
    match WithEditor(v.recent, id)
    case None => v
    case Some(d) =>
      var e := Changed(d, version, stateId, savedStateId, saveGeneration);
      if e == d then v else v.(recent := Replaced(v.recent, d, e), revision := Bump(v.revision))
  }

  function Clear(v: Lru): Lru {
    Lru([], None, false, if v.recent == [] then v.revision else Bump(v.revision))
  }

  // ---------------------------------------------------------------------------
  // The registry as it is stored
  // ---------------------------------------------------------------------------

  ghost predicate UniqueIdentities(docs: seq<Stamped<SynchronizedDocument>>) {
    forall i, j | 0 <= i < j < |docs| ::
      docs[i].item.editorId != docs[j].item.editorId && docs[i].item.uri != docs[j].item.uri
  }

  class Registry {
    const isLocal: string -> bool
    var documents: seq<Stamped<SynchronizedDocument>>
    var activeEditorId: Option<nat>
    var nextOrdinal: nat
    var revision: nat
    var partial: bool

    ghost predicate Valid()
      reads this
    {
      && |documents| <= MAX_SYNCHRONIZED_DOCUMENTS
      && UniqueIdentities(documents)
      && Ticking(documents, nextOrdinal)
    }

    ghost function View(): Lru
      reads this
    {
      Lru(Chrono(documents), activeEditorId, partial, revision)
    }

    constructor (isLocal: string -> bool)
      ensures Valid() && View() == EMPTY && this.isLocal == isLocal
    {
      this.isLocal := isLocal;
      documents, activeEditorId, nextOrdinal, revision, partial := [], None, 1, 0, false;
    }

    /** Where the document of an editor is stored. */
    method IndexOfEditor(id: nat) returns (k: Option<nat>)
      requires Valid()
      ensures match k
              case None => WithEditor(Chrono(documents), id) == None
              case Some(i) => i < |documents| && documents[i].item.editorId == id
                              && WithEditor(Chrono(documents), id) == Some(documents[i].item)
    {
      Identities(documents);
      k := None;
      for i := 0 to |documents|
        invariant k == None && forall j | 0 <= j < i :: documents[j].item.editorId != id
      {
        if documents[i].item.editorId == id {
          FoundEditor(documents, i);
          return Some(i);
        }
      }
      NoEditor(documents, id);
    }

    method IndexOfUri(uri: string) returns (k: Option<nat>)
      requires Valid()
      ensures match k
              case None => WithUri(Chrono(documents), uri) == None
              case Some(i) => i < |documents| && documents[i].item.uri == uri
                              && WithUri(Chrono(documents), uri) == Some(documents[i].item)
    {
      Identities(documents);
      k := None;
      for i := 0 to |documents|
        invariant k == None && forall j | 0 <= j < i :: documents[j].item.uri != uri
      {
        if documents[i].item.uri == uri {
          FoundUri(documents, i);
          return Some(i);
        }
      }
      NoUri(documents, uri);
    }

    method InsertDocument(d: SynchronizedDocument) returns (result: InsertResult)
      requires Valid()
      modifies this
      ensures Valid() && View() == Insert(old(View()), d, isLocal)
      ensures var before := old(View());
              result == match Refusal(before, d, isLocal)
                        case Some(error) => Rejected(error)
                        case None =>
                          Inserted(if Full(before.recent) then Some(before.recent[0]) else None, View().partial)
    {
      hide Chrono, WithEditor, WithUri;
      if !isLocal(d.uri) {
        return Rejected(NonFileUri);
      }
      var sameEditor := IndexOfEditor(d.editorId);
      if sameEditor.Some? {
        return Rejected(DuplicateEditorId);
      }
      var sameUri := IndexOfUri(d.uri);
      if sameUri.Some? {
        return Rejected(DuplicateUri);
      }
      result := AdmitDocument(d);
    }

    method AdmitDocument(d: SynchronizedDocument) returns (result: InsertResult)
      requires Valid()
      requires WithEditor(Chrono(documents), d.editorId).None? && WithUri(Chrono(documents), d.uri).None?
      modifies this
      ensures Valid() && View() == Admit(old(View()), d)
      ensures result == Inserted(if Full(old(View()).recent) then Some(old(View()).recent[0]) else None, partial)
    {
      hide Chrono, Items, WithEditor, WithUri;
      NewIdentity(documents, d);
      var evicted: Option<SynchronizedDocument> := None;
      if |documents| >= MAX_SYNCHRONIZED_DOCUMENTS {
        ghost var before := documents;
        ghost var k;
        evicted, k := RemoveLru();
        NewAmongFewer(before, k, d);
      }
      if evicted.Some? {
        partial := true;
      }
      var stamped, ordinal, after := Allocate(documents, nextOrdinal);
      ItemsAgree(documents, stamped);
      AddedLast(stamped, d, ordinal);
      activeEditorId := Some(d.editorId);
      documents, nextOrdinal := stamped + [Stamped(d, ordinal)], after;
      revision := Bump(revision);
      result := Inserted(evicted, partial);
    }

    /** Removes the document with the least ordinal. */
    method RemoveLru() returns (removed: Option<SynchronizedDocument>, ghost k: nat)
      requires Valid() && documents != []
      modifies this
      ensures Valid() && k < |old(documents)| && documents == RemoveAt(old(documents), k)
      ensures removed == Some(old(View()).recent[0])
      ensures View() == Remove(old(View()), removed) && View().recent == old(View()).recent[1..]
      ensures nextOrdinal == old(nextOrdinal)
    {
      hide Chrono, Items;
      var i := Oldest(documents);
      OldestIsFirst(documents, i);
      Identities(documents);
      ChronoIsDistinct(documents);
      WithoutFirst(Chrono(documents));
      k := i;
      removed := RemoveIndex(i);
    }

    method RemoveIndex(k: nat) returns (removed: Option<SynchronizedDocument>)
      requires Valid() && k < |documents|
      modifies this
      ensures Valid() && documents == RemoveAt(old(documents), k) && nextOrdinal == old(nextOrdinal)
      ensures removed == Some(old(documents)[k].item)
      ensures View() == Remove(old(View()), removed)
    {
      hide Chrono, Items;
      Identities(documents);
      RemovedItem(documents, k);
      FewerIdentities(documents, k);
      OneLess(documents, k);
      RestBelow(documents, k, nextOrdinal);
      var d := documents[k].item;
      documents := documents[..k] + documents[k + 1..];
      revision := Bump(revision);
      if activeEditorId == Some(d.editorId) {
        activeEditorId := None;
      }
      removed := Some(d);
    }

    method RemoveByEditorId(id: nat) returns (removed: Option<SynchronizedDocument>)
      requires Valid()
      modifies this
      ensures Valid() && removed == WithEditor(old(View()).recent, id) && View() == Remove(old(View()), removed)
    {
      hide Chrono, WithEditor;
      var k := IndexOfEditor(id);
      if k.None? {
        return None;
      }
      removed := RemoveIndex(k.value);
    }

    method RemoveByUri(uri: string) returns (removed: Option<SynchronizedDocument>)
      requires Valid()
      modifies this
      ensures Valid() && removed == WithUri(old(View()).recent, uri) && View() == Remove(old(View()), removed)
    {
      hide Chrono, WithUri;
      var k := IndexOfUri(uri);
      if k.None? {
        return None;
      }
      removed := RemoveIndex(k.value);
    }

    method MarkEditorActive(id: nat) returns (found: bool)
      requires Valid()
      modifies this
      ensures Valid() && View() == MarkActive(old(View()), id)
      ensures found == WithEditor(old(View()).recent, id).Some?
    {
      hide Chrono, Items, WithEditor;
      var k := IndexOfEditor(id);
      if k.None? {
        return false;
      }
      var stamped, ordinal, after := Allocate(documents, nextOrdinal);
      ItemsAgree(documents, stamped);
      Identities(stamped);
      UsedItem(stamped, k.value, ordinal);
      documents := stamped[k.value := Stamped(stamped[k.value].item, ordinal)];
      nextOrdinal := after;
      activeEditorId := Some(id);
      found := true;
    }

    /** Changes the snapshot of a document in place, without touching its recency. */
    method UpdateDocument(id: nat, version: nat, stateId: nat, savedStateId: Option<nat>, saveGeneration: nat)
      returns (found: bool)
      requires Valid()
      modifies this
      ensures Valid() && View() == Update(old(View()), id, version, stateId, savedStateId, saveGeneration)
      ensures found == WithEditor(old(View()).recent, id).Some?
    {
      hide Chrono, Items, WithEditor;
      var k := IndexOfEditor(id);
      if k.None? {
        return false;
      }
      var entry := documents[k.value];
      var d := entry.item;
      if d.version != version || d.stateId != stateId || d.savedStateId != savedStateId
         || d.saveGeneration != saveGeneration {
        var e := Changed(d, version, stateId, savedStateId, saveGeneration);
        Identities(documents);
        ChangedItem(documents, k.value, e);
        documents := documents[k.value := Stamped(e, entry.ordinal)];
        assert Chrono(documents) == Replaced(old(View()).recent, d, e);
        revision := Bump(revision);
      }
      found := true;
    }

    method MarkPartial()
      requires Valid()
      modifies this
      ensures Valid() && View() == old(View()).(partial := true)
    {
      partial := true;
    }

    method ClearAll() returns (removed: seq<SynchronizedDocument>)
      requires Valid()
      modifies this
      ensures Valid() && View() == Clear(old(View()))
      ensures removed == Items(old(documents))
    {
      removed := Items(documents);
      activeEditorId, nextOrdinal, partial := None, 1, false;
      if documents != [] {
        revision := Bump(revision);
      }
      documents := [];
    }
  }

  // ---------------------------------------------------------------------------
  // Identities in storage and in the list
  // ---------------------------------------------------------------------------

  lemma Identities(s: seq<Stamped<SynchronizedDocument>>)
    requires UniqueIdentities(s)
    ensures DistinctItems(s)
  {
  }

  lemma ItemsAgree(s: seq<Stamped<SynchronizedDocument>>, t: seq<Stamped<SynchronizedDocument>>)
    requires Items(s) == Items(t)
    ensures |s| == |t| && forall i | 0 <= i < |s| :: s[i].item == t[i].item
  {
    assert forall i | 0 <= i < |s| :: Items(s)[i] == Items(t)[i];
  }

  lemma FewerIdentities(s: seq<Stamped<SynchronizedDocument>>, k: nat)
    requires UniqueIdentities(s) && k < |s|
    ensures UniqueIdentities(RemoveAt(s, k))
  {
    var rest := RemoveAt(s, k);
    assert forall i | 0 <= i < |rest| :: rest[i] == s[if i < k then i else i + 1];
  }

  lemma FoundEditor(s: seq<Stamped<SynchronizedDocument>>, i: nat)
    requires Distinct(s) && UniqueIdentities(s) && i < |s|
    ensures WithEditor(Chrono(s), s[i].item.editorId) == Some(s[i].item)
  {
    hide Chrono;
    Identities(s);
    ChronoIsDistinct(s);
    assert Items(s)[i] in Chrono(s);
    var d := WithEditor(Chrono(s), s[i].item.editorId).value;
    assert d in Items(s);
  }

  lemma NoEditor(s: seq<Stamped<SynchronizedDocument>>, id: nat)
    requires Distinct(s) && UniqueIdentities(s) && forall j | 0 <= j < |s| :: s[j].item.editorId != id
    ensures WithEditor(Chrono(s), id) == None
  {
    hide Chrono;
    Identities(s);
    ChronoIsDistinct(s);
  }

  lemma FoundUri(s: seq<Stamped<SynchronizedDocument>>, i: nat)
    requires Distinct(s) && UniqueIdentities(s) && i < |s|
    ensures WithUri(Chrono(s), s[i].item.uri) == Some(s[i].item)
  {
    hide Chrono;
    Identities(s);
    ChronoIsDistinct(s);
    assert Items(s)[i] in Chrono(s);
    var d := WithUri(Chrono(s), s[i].item.uri).value;
    assert d in Items(s);
  }

  lemma NoUri(s: seq<Stamped<SynchronizedDocument>>, uri: string)
    requires Distinct(s) && UniqueIdentities(s) && forall j | 0 <= j < |s| :: s[j].item.uri != uri
    ensures WithUri(Chrono(s), uri) == None
  {
    hide Chrono;
    Identities(s);
    ChronoIsDistinct(s);
  }

  ghost predicate NewAmong(s: seq<Stamped<SynchronizedDocument>>, d: SynchronizedDocument) {
    forall i | 0 <= i < |s| :: s[i].item.editorId != d.editorId && s[i].item.uri != d.uri
  }

  lemma NewIdentity(s: seq<Stamped<SynchronizedDocument>>, d: SynchronizedDocument)
    requires Distinct(s) && UniqueIdentities(s)
    requires WithEditor(Chrono(s), d.editorId).None? && WithUri(Chrono(s), d.uri).None?
    ensures NewAmong(s, d)
  {
    hide Chrono;
    Identities(s);
    ChronoIsDistinct(s);
    assert forall i | 0 <= i < |s| :: Items(s)[i] in Chrono(s);
  }

  lemma NewAmongFewer(s: seq<Stamped<SynchronizedDocument>>, k: nat, d: SynchronizedDocument)
    requires NewAmong(s, d) && k < |s|
    ensures NewAmong(RemoveAt(s, k), d)
  {
    var rest := RemoveAt(s, k);
    assert forall i | 0 <= i < |rest| :: rest[i] == s[if i < k then i else i + 1];
  }

  // ---------------------------------------------------------------------------
  // Histories
  // ---------------------------------------------------------------------------

  datatype Operation =
    | Insertion(d: SynchronizedDocument)
    | Activation(id: nat)
    | EditorRemoval(id: nat)
    | UriRemoval(uri: string)
    | Revision(id: nat, version: nat, stateId: nat, savedStateId: Option<nat>, saveGeneration: nat)
    | Loss
    | Clearing

  function Step(v: Lru, op: Operation, isLocal: string -> bool): Lru {
    match op
    case Insertion(d) => Insert(v, d, isLocal)
    case Activation(id) => MarkActive(v, id)
    case EditorRemoval(id) => Remove(v, WithEditor(v.recent, id))
    case UriRemoval(uri) => Remove(v, WithUri(v.recent, uri))
    case Revision(id, version, stateId, saved, generation) => Update(v, id, version, stateId, saved, generation)
    case Loss => v.(partial := true)
    case Clearing => Clear(v)
  }

  function Run(log: seq<Operation>, isLocal: string -> bool): Lru {
    if log == [] then EMPTY else Step(Run(log[..|log| - 1], isLocal), log[|log| - 1], isLocal)
  }

  ghost predicate Unique(docs: seq<SynchronizedDocument>) {
    forall i, j | 0 <= i < j < |docs| :: docs[i].editorId != docs[j].editorId && docs[i].uri != docs[j].uri
  }

  /** What every history keeps: bounded, unique, and the active document is the newest. */
  ghost predicate Sound(v: Lru) {
    && |v.recent| <= MAX_SYNCHRONIZED_DOCUMENTS
    && Unique(v.recent)
    && (v.active.Some? ==> v.recent != [] && v.active.value == v.recent[|v.recent| - 1].editorId)
  }

  lemma {:induction false} WithoutIsUnique(docs: seq<SynchronizedDocument>, d: SynchronizedDocument)
    requires Unique(docs)
    ensures Unique(Without(docs, d))
  {
    if docs != [] {
      var before := docs[..|docs| - 1];
      WithoutIsUnique(before, d);
      assert forall i | 0 <= i < |Without(before, d)| :: Without(before, d)[i] in before;
    }
  }

  lemma RemoveIsSound(v: Lru, d: SynchronizedDocument)
    requires Sound(v) && d in v.recent
    ensures Sound(Remove(v, Some(d)))
  {
    WithoutIsUnique(v.recent, d);
    if v.active.Some? && v.active.value != d.editorId {
      var last := v.recent[|v.recent| - 1];
      assert last != d;
      assert Without(v.recent, d)[|Without(v.recent, d)| - 1] == last;
    }
  }

  lemma MarkActiveIsSound(v: Lru, id: nat)
    requires Sound(v)
    ensures Sound(MarkActive(v, id))
  {
    hide Without, Unique;
    if WithEditor(v.recent, id).Some? {
      var d := WithEditor(v.recent, id).value;
      MovedIsUnique(v.recent, d);
      WithoutShrinks(v.recent, d);
    }
  }

  lemma MovedIsUnique(docs: seq<SynchronizedDocument>, d: SynchronizedDocument)
    requires Unique(docs) && d in docs
    ensures Unique(Without(docs, d) + [d])
  {
    hide Without;
    WithoutIsUnique(docs, d);
    UniqueMembers(docs);
    var rest := Without(docs, d);
    assert forall i | 0 <= i < |rest| :: rest[i] in rest;
  }

  lemma UniqueMembers(docs: seq<SynchronizedDocument>)
    requires Unique(docs)
    ensures forall x, y | x in docs && y in docs && x != y :: x.editorId != y.editorId && x.uri != y.uri
  {
  }

  lemma {:induction false} WithoutShrinks(docs: seq<SynchronizedDocument>, d: SynchronizedDocument)
    requires d in docs
    ensures |Without(docs, d)| < |docs|
  {
    if docs[|docs| - 1] != d {
      WithoutShrinks(docs[..|docs| - 1], d);
    }
  }

  lemma UpdateIsSound(v: Lru, d: SynchronizedDocument, e: SynchronizedDocument)
    requires Sound(v) && e.editorId == d.editorId && e.uri == d.uri
    ensures Sound(v.(recent := Replaced(v.recent, d, e), revision := Bump(v.revision)))
  {
  }

  lemma StepIsSound(v: Lru, op: Operation, isLocal: string -> bool)
    requires Sound(v)
    ensures Sound(Step(v, op, isLocal))
  {
    hide Without, Replaced;
    match op
    case Insertion(d) =>
      if Refusal(v, d, isLocal).None? {
        assert forall i | 0 <= i < |v.recent| :: v.recent[i] in v.recent;
      }
    case Activation(id) => MarkActiveIsSound(v, id);
    case EditorRemoval(id) =>
      if WithEditor(v.recent, id).Some? {
        RemoveIsSound(v, WithEditor(v.recent, id).value);
      }
    case UriRemoval(uri) =>
      if WithUri(v.recent, uri).Some? {
        RemoveIsSound(v, WithUri(v.recent, uri).value);
      }
    case Revision(id, version, stateId, saved, generation) =>
      if WithEditor(v.recent, id).Some? {
        var d := WithEditor(v.recent, id).value;
        UpdateIsSound(v, d, Changed(d, version, stateId, saved, generation));
      }
    case Loss =>
    case Clearing =>
  }

  lemma {:induction false} SoundOnRuns(log: seq<Operation>, isLocal: string -> bool)
    ensures Sound(Run(log, isLocal))
  {
    hide Step, Sound;
    if log == [] {
      EmptyIsSound();
    } else {
      SoundOnRuns(log[..|log| - 1], isLocal);
      StepIsSound(Run(log[..|log| - 1], isLocal), log[|log| - 1], isLocal);
    }
  }

  lemma EmptyIsSound()
    ensures Sound(EMPTY)
  {
  }

  /** In any history, admitting a document never evicts the active one. */
  lemma AdmissionSparesActive(log: seq<Operation>, d: SynchronizedDocument, isLocal: string -> bool)
    requires Run(log, isLocal).active.Some? && Refusal(Run(log, isLocal), d, isLocal).None?
    ensures var v := Run(log, isLocal);
            var next := Insert(v, d, isLocal);
            && next.active == Some(d.editorId)
            && WithEditor(v.recent, v.active.value).Some?
            && WithEditor(v.recent, v.active.value).value in next.recent
  {
    hide Run;
    SoundOnRuns(log, isLocal);
    var v := Run(log, isLocal);
    var last := v.recent[|v.recent| - 1];
    var found := WithEditor(v.recent, v.active.value);
    assert found == Some(last);
    assert Full(v.recent) ==> last in v.recent[1..];
  }

  // ---------------------------------------------------------------------------
  // Recency, read off the history
  // ---------------------------------------------------------------------------

  predicate Holds(v: Lru, id: nat) {
    exists i | 0 <= i < |v.recent| :: v.recent[i].editorId == id
  }

  /** The editor whose document an operation uses: one inserted, or one focused that is held. */
  predicate Uses(v: Lru, op: Operation, id: nat, isLocal: string -> bool) {
    match op
    case Insertion(d) =>
      d.editorId == id && isLocal(d.uri) && forall e <- v.recent :: e.editorId != id && e.uri != d.uri
    case Activation(active) => active == id && Holds(v, id)
    case _ => false
  }

  /** The number of the last operation of a history that used the document of an editor; 0 if none did. */
  function LastUse(log: seq<Operation>, id: nat, isLocal: string -> bool): nat {
    if log == [] then 0
    else if Uses(Run(log[..|log| - 1], isLocal), log[|log| - 1], id, isLocal) then |log|
    else LastUse(log[..|log| - 1], id, isLocal)
  }

  /** Each document was used later than those before it. */
  ghost predicate ByUse(docs: seq<SynchronizedDocument>, log: seq<Operation>, isLocal: string -> bool) {
    && (forall i | 0 <= i < |docs| :: 0 < LastUse(log, docs[i].editorId, isLocal) <= |log|)
    && (forall i, j | 0 <= i < j < |docs| ::
          LastUse(log, docs[i].editorId, isLocal) < LastUse(log, docs[j].editorId, isLocal))
  }

  lemma {:induction false} LastUseBound(log: seq<Operation>, id: nat, isLocal: string -> bool)
    ensures LastUse(log, id, isLocal) <= |log|
  {
    hide Uses, Run;
    if log != [] {
      LastUseBound(log[..|log| - 1], id, isLocal);
    }
  }

  /** Leaving a document out keeps the order. */
  lemma {:induction false} WithoutByUse(
      docs: seq<SynchronizedDocument>, d: SynchronizedDocument, log: seq<Operation>, isLocal: string -> bool)
    requires ByUse(docs, log, isLocal)
    ensures ByUse(Without(docs, d), log, isLocal)
    ensures forall e <- Without(docs, d) :: e in docs && e != d
  {
    hide LastUse, ByUse;
    if docs != [] {
      var before, last := docs[..|docs| - 1], docs[|docs| - 1];
      FrontByUse(docs, log, isLocal);
      WithoutByUse(before, d, log, isLocal);
      BackByUse(Without(before, d), last, log, isLocal);
      assert Without(before, d) + [] == Without(before, d);
    }
  }

  lemma FrontByUse(docs: seq<SynchronizedDocument>, log: seq<Operation>, isLocal: string -> bool)
    requires ByUse(docs, log, isLocal) && docs != []
    ensures var before, last := docs[..|docs| - 1], docs[|docs| - 1];
            && ByUse(before, log, isLocal) && 0 < LastUse(log, last.editorId, isLocal) <= |log|
            && forall e <- before :: LastUse(log, e.editorId, isLocal) < LastUse(log, last.editorId, isLocal)
  {
    hide LastUse;
  }

  lemma BackByUse(
      docs: seq<SynchronizedDocument>, d: SynchronizedDocument, log: seq<Operation>, isLocal: string -> bool)
    requires ByUse(docs, log, isLocal) && 0 < LastUse(log, d.editorId, isLocal) <= |log|
    requires forall e <- docs :: LastUse(log, e.editorId, isLocal) < LastUse(log, d.editorId, isLocal)
    ensures ByUse(docs + [d], log, isLocal)
  {
    hide LastUse;
    var all := docs + [d];
    forall i, j | 0 <= i < j < |all|
      ensures LastUse(log, all[i].editorId, isLocal) < LastUse(log, all[j].editorId, isLocal)
    {
      assert all[i] == docs[i] && docs[i] in docs;
      assert j < |docs| ==> all[j] == docs[j];
    }
  }

  /** An operation that uses nothing of these keeps their order. */
  lemma UnusedByUse(docs: seq<SynchronizedDocument>, log: seq<Operation>, op: Operation, isLocal: string -> bool)
    requires ByUse(docs, log, isLocal) && forall d <- docs :: !Uses(Run(log, isLocal), op, d.editorId, isLocal)
    ensures ByUse(docs, log + [op], isLocal)
  {
    hide Uses, Run;
    assert (log + [op])[..|log|] == log;
    assert forall i | 0 <= i < |docs| :: docs[i] in docs;
  }

  /** The document an operation uses goes to the back. */
  lemma UsedByUse(
      docs: seq<SynchronizedDocument>, d: SynchronizedDocument, log: seq<Operation>, op: Operation,
      isLocal: string -> bool)
    requires ByUse(docs, log, isLocal) && forall e <- docs :: !Uses(Run(log, isLocal), op, e.editorId, isLocal)
    requires Uses(Run(log, isLocal), op, d.editorId, isLocal)
    ensures ByUse(docs + [d], log + [op], isLocal)
  {
    hide Uses, Run;
    UnusedByUse(docs, log, op, isLocal);
    assert (log + [op])[..|log|] == log;
    forall i | 0 <= i < |docs| ensures LastUse(log + [op], docs[i].editorId, isLocal) < |log| + 1 {
      assert docs[i] in docs;
      LastUseBound(log, docs[i].editorId, isLocal);
    }
  }

  lemma RefusalMeans(v: Lru, d: SynchronizedDocument, isLocal: string -> bool)
    ensures Refusal(v, d, isLocal).None? <==> Uses(v, Insertion(d), d.editorId, isLocal)
  {
    hide WithEditor, WithUri;
    if Refusal(v, d, isLocal).Some? && isLocal(d.uri) {
      var e := if WithEditor(v.recent, d.editorId).Some? then WithEditor(v.recent, d.editorId).value
               else WithUri(v.recent, d.uri).value;
      assert e in v.recent;
    }
  }

  lemma HoldsMeans(v: Lru, id: nat)
    ensures Holds(v, id) <==> WithEditor(v.recent, id).Some?
  {
    hide WithEditor;
    if WithEditor(v.recent, id).Some? {
      var d := WithEditor(v.recent, id).value;
      assert exists i | 0 <= i < |v.recent| :: v.recent[i] == d;
    }
    if Holds(v, id) {
      var i :| 0 <= i < |v.recent| && v.recent[i].editorId == id;
      assert v.recent[i] in v.recent;
    }
  }

  lemma InsertionByUse(log: seq<Operation>, d: SynchronizedDocument, isLocal: string -> bool)
    requires ByUse(Run(log, isLocal).recent, log, isLocal)
    ensures ByUse(Insert(Run(log, isLocal), d, isLocal).recent, log + [Insertion(d)], isLocal)
  {
    hide Run, LastUse, Refusal;
    var v := Run(log, isLocal);
    RefusalMeans(v, d, isLocal);
    if Refusal(v, d, isLocal).Some? {
      UnusedByUse(v.recent, log, Insertion(d), isLocal);
    } else {
      var kept := if Full(v.recent) then v.recent[1..] else v.recent;
      assert forall e <- kept :: e in v.recent;
      UsedByUse(kept, d, log, Insertion(d), isLocal);
    }
  }

  lemma ActivationByUse(log: seq<Operation>, id: nat, isLocal: string -> bool)
    requires ByUse(Run(log, isLocal).recent, log, isLocal) && Sound(Run(log, isLocal))
    ensures ByUse(MarkActive(Run(log, isLocal), id).recent, log + [Activation(id)], isLocal)
  {
    hide Run, LastUse, WithEditor, Without, ByUse;
    var v := Run(log, isLocal);
    HoldsMeans(v, id);
    if Holds(v, id) {
      var d := WithEditor(v.recent, id).value;
      WithoutByUse(v.recent, d, log, isLocal);
      UniqueMembers(v.recent);
      hide Holds;
      UsedByUse(Without(v.recent, d), d, log, Activation(id), isLocal);
    } else {
      hide Holds;
      UnusedByUse(v.recent, log, Activation(id), isLocal);
    }
  }

  lemma StepByUse(log: seq<Operation>, op: Operation, isLocal: string -> bool)
    requires ByUse(Run(log, isLocal).recent, log, isLocal) && Sound(Run(log, isLocal))
    ensures ByUse(Step(Run(log, isLocal), op, isLocal).recent, log + [op], isLocal)
  {
    hide Run, LastUse, WithEditor, WithUri, Without, Insert, MarkActive, ByUse, Replaced, Sound;
    var v := Run(log, isLocal);
    match op
    case Insertion(d) => InsertionByUse(log, d, isLocal);
    case Activation(id) => ActivationByUse(log, id, isLocal);
    case EditorRemoval(id) =>
      RemovalByUse(v, WithEditor(v.recent, id), log, isLocal);
      UnusedByUse(Step(v, op, isLocal).recent, log, op, isLocal);
    case UriRemoval(uri) =>
      RemovalByUse(v, WithUri(v.recent, uri), log, isLocal);
      UnusedByUse(Step(v, op, isLocal).recent, log, op, isLocal);
    case Revision(id, version, stateId, saved, generation) =>
      RevisionByUse(v, op, log, isLocal);
      UnusedByUse(Step(v, op, isLocal).recent, log, op, isLocal);
    case Loss => UnusedByUse(v.recent, log, op, isLocal);
    case Clearing =>
      NothingByUse(log, isLocal);
      UnusedByUse([], log, op, isLocal);
  }

  lemma NothingByUse(log: seq<Operation>, isLocal: string -> bool)
    ensures ByUse([], log, isLocal)
  {
  }

  lemma RemovalByUse(v: Lru, found: Option<SynchronizedDocument>, log: seq<Operation>, isLocal: string -> bool)
    requires ByUse(v.recent, log, isLocal)
    ensures ByUse(Remove(v, found).recent, log, isLocal)
  {
    hide ByUse, Without;
    if found.Some? {
      WithoutByUse(v.recent, found.value, log, isLocal);
    }
  }

  lemma RevisionByUse(v: Lru, op: Operation, log: seq<Operation>, isLocal: string -> bool)
    requires ByUse(v.recent, log, isLocal) && op.Revision?
    ensures ByUse(Step(v, op, isLocal).recent, log, isLocal)
  {
    hide LastUse, WithEditor;
  }

  /**
    In every history the documents stand in the order of their last use, the
    insertion or the focusing of them: so the one that gives way at capacity is
    the one whose last use is longest ago.
   */
  lemma {:induction false} OrderedByUse(log: seq<Operation>, isLocal: string -> bool)
    ensures ByUse(Run(log, isLocal).recent, log, isLocal)
  {
    hide ByUse, Step;
    if log == [] {
      NothingByUse(log, isLocal);
    } else {
      var before := log[..|log| - 1];
      OrderedByUse(before, isLocal);
      SoundOnRuns(before, isLocal);
      StepByUse(before, log[|log| - 1], isLocal);
      assert log == before + [log[|log| - 1]];
    }
  }

  /** The editor whose document was used last of all. */
  function LastUsed(log: seq<Operation>, isLocal: string -> bool): Option<nat> {
    if log == [] then None
    else
      var before, op := log[..|log| - 1], log[|log| - 1];
      if op.Insertion? && Uses(Run(before, isLocal), op, op.d.editorId, isLocal) then Some(op.d.editorId)
      else if op.Activation? && Uses(Run(before, isLocal), op, op.id, isLocal) then Some(op.id)
      else LastUsed(before, isLocal)
  }

  ghost predicate Focused(v: Lru, last: Option<nat>) {
    v.active == if last.Some? && Holds(v, last.value) then last else None
  }

  lemma RemovalFocused(v: Lru, d: SynchronizedDocument, last: Option<nat>)
    requires Sound(v) && d in v.recent && Focused(v, last)
    ensures Focused(Remove(v, Some(d)), last)
  {
    hide Without;
    var rest := Without(v.recent, d);
    UniqueMembers(v.recent);
    if last.Some? && Holds(v, last.value) && last.value != d.editorId {
      var i :| 0 <= i < |v.recent| && v.recent[i].editorId == last.value;
      assert v.recent[i] in rest;
      var j :| 0 <= j < |rest| && rest[j] == v.recent[i];
      assert Holds(Remove(v, Some(d)), last.value);
    }
    if last.Some? && Holds(Remove(v, Some(d)), last.value) {
      var j :| 0 <= j < |rest| && rest[j].editorId == last.value;
      assert rest[j] in v.recent;
      assert exists i | 0 <= i < |v.recent| :: v.recent[i] == rest[j];
    }
  }

  lemma InsertionFocused(v: Lru, d: SynchronizedDocument, last: Option<nat>, isLocal: string -> bool)
    requires Focused(v, last)
    ensures Focused(Insert(v, d, isLocal),
                    if Uses(v, Insertion(d), d.editorId, isLocal) then Some(d.editorId) else last)
  {
    hide Refusal, Uses;
    RefusalMeans(v, d, isLocal);
    var t := Insert(v, d, isLocal);
    if Refusal(v, d, isLocal).None? {
      assert t.recent[|t.recent| - 1] == d;
    }
  }

  lemma ActivationFocused(v: Lru, id: nat, last: Option<nat>)
    requires Focused(v, last)
    ensures Focused(MarkActive(v, id), if Holds(v, id) then Some(id) else last)
  {
    hide WithEditor, Without;
    HoldsMeans(v, id);
    var t := MarkActive(v, id);
    if Holds(v, id) {
      assert t.recent[|t.recent| - 1].editorId == id;
    }
  }

  lemma RevisionFocused(v: Lru, op: Operation, last: Option<nat>, isLocal: string -> bool)
    requires Focused(v, last) && op.Revision?
    ensures Focused(Step(v, op, isLocal), last)
  {
    hide WithEditor;
    var t := Step(v, op, isLocal);
    assert forall i | 0 <= i < |v.recent| :: t.recent[i].editorId == v.recent[i].editorId;
  }

  /** The active document is the one used last of all, as long as it is held. */
  lemma {:induction false} ActiveIsLastUsed(log: seq<Operation>, isLocal: string -> bool)
    ensures Focused(Run(log, isLocal), LastUsed(log, isLocal))
  {
    hide Insert, MarkActive, Update, WithEditor, WithUri, Sound, Remove;
    if log != [] {
      var before, op := log[..|log| - 1], log[|log| - 1];
      var v, last := Run(before, isLocal), LastUsed(before, isLocal);
      ActiveIsLastUsed(before, isLocal);
      SoundOnRuns(before, isLocal);
      match op
      case Insertion(d) => InsertionFocused(v, d, last, isLocal);
      case Activation(id) => ActivationFocused(v, id, last);
      case EditorRemoval(id) => FoundFocused(v, WithEditor(v.recent, id), last);
      case UriRemoval(uri) => FoundFocused(v, WithUri(v.recent, uri), last);
      case Revision(_, _, _, _, _) => RevisionFocused(v, op, last, isLocal);
      case Loss =>
      case Clearing =>
    }
  }

  lemma FoundFocused(v: Lru, found: Option<SynchronizedDocument>, last: Option<nat>)
    requires Sound(v) && Focused(v, last) && (found.Some? ==> found.value in v.recent)
    ensures Focused(Remove(v, found), last)
  {
    hide Sound, Focused, Without;
    if found.Some? {
      RemovalFocused(v, found.value, last);
    }
  }

  /** Whoever sees the same revision sees the same documents, and the other way round, until the counter saturates. */
  lemma RevisionTells(log: seq<Operation>, op: Operation, isLocal: string -> bool)
    requires Run(log, isLocal).revision < U128_MAX
    ensures var v, t := Run(log, isLocal), Step(Run(log, isLocal), op, isLocal);
            t.revision == v.revision <==> multiset(t.recent) == multiset(v.recent)
  {
    hide Run, WithEditor, WithUri, Refusal, Without, Update;
    var v := Run(log, isLocal);
    SoundOnRuns(log, isLocal);
    match op
    case Insertion(d) =>
      RefusalMeans(v, d, isLocal);
      if Refusal(v, d, isLocal).None? {
        AdmittedChanges(v, d);
      }
    case Activation(id) =>
      if WithEditor(v.recent, id).Some? {
        MovedIsSame(v.recent, WithEditor(v.recent, id).value);
      }
    case EditorRemoval(id) => RemovalChanges(v.recent, WithEditor(v.recent, id));
    case UriRemoval(uri) => RemovalChanges(v.recent, WithUri(v.recent, uri));
    case Revision(id, version, stateId, saved, generation) =>
      RevisionChanges(v, id, version, stateId, saved, generation);
    case Loss =>
    case Clearing =>
      if v.recent != [] {
        assert v.recent[0] in multiset(v.recent);
      }
  }

  lemma RevisionChanges(v: Lru, id: nat, version: nat, stateId: nat, saved: Option<nat>, generation: nat)
    requires Unique(v.recent) && v.revision < U128_MAX
    ensures var t := Update(v, id, version, stateId, saved, generation);
            t.revision == v.revision <==> multiset(t.recent) == multiset(v.recent)
  {
    hide WithEditor, Replaced;
    if WithEditor(v.recent, id).Some? {
      var d := WithEditor(v.recent, id).value;
      if Changed(d, version, stateId, saved, generation) != d {
        ReplacedChanges(v.recent, d, Changed(d, version, stateId, saved, generation));
      }
    }
  }

  lemma RemovalChanges(docs: seq<SynchronizedDocument>, found: Option<SynchronizedDocument>)
    requires found.Some? ==> found.value in docs
    ensures found.Some? ==> multiset(Without(docs, found.value)) != multiset(docs)
  {
    if found.Some? {
      assert found.value in multiset(docs) && found.value !in multiset(Without(docs, found.value));
    }
  }

  lemma AdmittedChanges(v: Lru, d: SynchronizedDocument)
    requires forall e <- v.recent :: e.editorId != d.editorId
    ensures multiset(Admit(v, d).recent) != multiset(v.recent)
  {
    var t := Admit(v, d);
    assert t.recent[|t.recent| - 1] == d;
    assert d in multiset(t.recent) && d !in multiset(v.recent);
  }

  lemma MovedIsSame(docs: seq<SynchronizedDocument>, d: SynchronizedDocument)
    requires Unique(docs) && d in docs
    ensures multiset(Without(docs, d) + [d]) == multiset(docs)
  {
    WithoutOnce(docs, d);
  }

  lemma {:induction false} WithoutOnce(docs: seq<SynchronizedDocument>, d: SynchronizedDocument)
    requires Unique(docs) && d in docs
    ensures multiset(Without(docs, d)) + multiset{d} == multiset(docs)
  {
    var before, last := docs[..|docs| - 1], docs[|docs| - 1];
    assert docs == before + [last];
    if last == d {
      NotBefore(docs);
      WithoutNone(before, d);
      assert Without(docs, d) == before;
    } else {
      WithoutOnce(before, d);
      assert Without(docs, d) == Without(before, d) + [last];
    }
  }

  lemma NotBefore(docs: seq<SynchronizedDocument>)
    requires Unique(docs) && docs != []
    ensures docs[|docs| - 1] !in docs[..|docs| - 1]
  {
  }

  lemma {:induction false} WithoutNone(docs: seq<SynchronizedDocument>, d: SynchronizedDocument)
    requires d !in docs
    ensures Without(docs, d) == docs
  {
    if docs != [] {
      WithoutNone(docs[..|docs| - 1], d);
      assert docs == docs[..|docs| - 1] + [docs[|docs| - 1]];
    }
  }

  lemma ReplacedChanges(docs: seq<SynchronizedDocument>, d: SynchronizedDocument, e: SynchronizedDocument)
    requires Unique(docs) && d in docs && d != e
    ensures multiset(Replaced(docs, d, e)) != multiset(docs)
  {
    var changed := Replaced(docs, d, e);
    assert d !in changed;
    assert d in multiset(docs) && d !in multiset(changed);
  }

  // ---------------------------------------------------------------------------
  // What a complete registry promises
  // ---------------------------------------------------------------------------

  /** The same registry without a capacity. */
  function UnboundedStep(v: Lru, op: Operation, isLocal: string -> bool): Lru {
    match op
    case Insertion(d) =>
      if Refusal(v, d, isLocal).Some? then v
      else Lru(v.recent + [d], Some(d.editorId), v.partial, Bump(v.revision))
    case _ => Step(v, op, isLocal)
  }

  function UnboundedRun(log: seq<Operation>, isLocal: string -> bool): Lru {
    if log == [] then EMPTY else UnboundedStep(UnboundedRun(log[..|log| - 1], isLocal), log[|log| - 1], isLocal)
  }

  /** While the registry is complete it holds what a registry without a bound would hold, in the same order. */
  lemma {:induction false} CompleteIsUnbounded(log: seq<Operation>, isLocal: string -> bool)
    requires !Run(log, isLocal).partial
    ensures Run(log, isLocal).recent == UnboundedRun(log, isLocal).recent
    ensures Run(log, isLocal).active == UnboundedRun(log, isLocal).active
  {
    hide WithEditor, WithUri, Without;
    if log != [] {
      var before := log[..|log| - 1];
      if !log[|log| - 1].Clearing? {
        if Run(before, isLocal).partial {
          PartialPersists(Run(before, isLocal), log[|log| - 1], isLocal);
        }
        CompleteIsUnbounded(before, isLocal);
      }
    }
  }

  /** Only clearing makes a partial registry complete again. */
  lemma PartialPersists(v: Lru, op: Operation, isLocal: string -> bool)
    requires v.partial && !op.Clearing?
    ensures Step(v, op, isLocal).partial
  {
    hide WithEditor, WithUri, Without;
  }

  // ---------------------------------------------------------------------------
  // What is held, read off the history
  // ---------------------------------------------------------------------------

  /** What a history says of the document of an editor: the latest insertion with its revisions, until it is removed. */
  function Image(log: seq<Operation>, id: nat, isLocal: string -> bool): Option<SynchronizedDocument> {
    if log == [] then None
    else
      var before, op := log[..|log| - 1], log[|log| - 1];
      var was := Image(before, id, isLocal);
      match op
      case Insertion(d) => if Uses(Run(before, isLocal), op, id, isLocal) then Some(d) else was
      case EditorRemoval(gone) => if gone == id then None else was
      case UriRemoval(uri) => if was.Some? && was.value.uri == uri then None else was
      case Revision(changed, version, stateId, saved, generation) =>
        if changed == id && was.Some? then
          Some(was.value.(version := version, stateId := stateId, savedStateId := saved, saveGeneration := generation))
        else was
      case Clearing => None
      case _ => was
  }

  /** Each document held is as the history has it, and while the registry is complete none is missing. */
  ghost predicate Depicted(v: Lru, log: seq<Operation>, isLocal: string -> bool) {
    && (forall d <- v.recent :: Image(log, d.editorId, isLocal) == Some(d))
    && (!v.partial ==> forall id: nat :: Image(log, id, isLocal).Some? ==> Holds(v, id))
  }

  lemma {:induction false} ImageKeepsEditor(log: seq<Operation>, id: nat, isLocal: string -> bool)
    ensures Image(log, id, isLocal).Some? ==> Image(log, id, isLocal).value.editorId == id
  {
    hide Run;
    if log != [] {
      ImageKeepsEditor(log[..|log| - 1], id, isLocal);
    }
  }

  lemma InsertionDepicted(log: seq<Operation>, d: SynchronizedDocument, isLocal: string -> bool)
    requires Depicted(Run(log, isLocal), log, isLocal)
    ensures Depicted(Insert(Run(log, isLocal), d, isLocal), log + [Insertion(d)], isLocal)
  {
    hide Run, Refusal;
    var v, t, longer := Run(log, isLocal), Insert(Run(log, isLocal), d, isLocal), log + [Insertion(d)];
    assert longer[..|longer| - 1] == log;
    RefusalMeans(v, d, isLocal);
    if Refusal(v, d, isLocal).None? {
      assert t.recent[|t.recent| - 1] == d;
      assert Full(v.recent) ==> forall e <- v.recent[1..] :: e in v.recent;
      forall id: nat | !t.partial && Image(longer, id, isLocal).Some? ensures Holds(t, id) {
        if id != d.editorId {
          HeldStill(v, t, id);
        }
      }
    }
  }

  /** With a document more at the back, what was held is held. */
  lemma HeldStill(v: Lru, t: Lru, id: nat)
    requires Holds(v, id) && v.recent <= t.recent
    ensures Holds(t, id)
  {
    var i :| 0 <= i < |v.recent| && v.recent[i].editorId == id;
    assert t.recent[i] == v.recent[i];
  }

  /** What is held is decided by what is in the list. */
  lemma HeldByMembers(v: Lru, t: Lru, id: nat)
    requires Holds(v, id) && forall d <- v.recent :: d.editorId == id ==> exists e <- t.recent :: e.editorId == id
    ensures Holds(t, id)
  {
    var i :| 0 <= i < |v.recent| && v.recent[i].editorId == id;
    assert v.recent[i] in v.recent;
    var e :| e in t.recent && e.editorId == id;
    var j :| 0 <= j < |t.recent| && t.recent[j] == e;
  }

  lemma ActivationDepicted(log: seq<Operation>, id: nat, isLocal: string -> bool)
    requires Depicted(Run(log, isLocal), log, isLocal)
    ensures Depicted(MarkActive(Run(log, isLocal), id), log + [Activation(id)], isLocal)
  {
    hide Run, WithEditor, Without;
    var v, t, longer := Run(log, isLocal), MarkActive(Run(log, isLocal), id), log + [Activation(id)];
    assert longer[..|longer| - 1] == log;
    assert forall d :: d in t.recent <==> d in v.recent;
    forall other: nat | !t.partial && Image(longer, other, isLocal).Some? ensures Holds(t, other) {
      HeldByMembers(v, t, other);
    }
  }

  lemma RemovalDepicted(
      log: seq<Operation>, op: Operation, found: Option<SynchronizedDocument>, isLocal: string -> bool)
    requires Depicted(Run(log, isLocal), log, isLocal) && Sound(Run(log, isLocal))
    requires op.EditorRemoval? || op.UriRemoval?
    requires found == if op.EditorRemoval? then WithEditor(Run(log, isLocal).recent, op.id)
                      else WithUri(Run(log, isLocal).recent, op.uri)
    ensures Depicted(Remove(Run(log, isLocal), found), log + [op], isLocal)
  {
    hide Run, WithEditor, WithUri, Without;
    var v, t, longer := Run(log, isLocal), Remove(Run(log, isLocal), found), log + [op];
    assert longer[..|longer| - 1] == log;
    UniqueMembers(v.recent);
    forall id: nat | !t.partial && Image(longer, id, isLocal).Some? ensures Holds(t, id) {
      assert Image(longer, id, isLocal) == Image(log, id, isLocal);
      var i :| 0 <= i < |v.recent| && v.recent[i].editorId == id;
      assert v.recent[i] in v.recent;
      HeldByMembers(v, t, id);
    }
  }

  lemma RevisionDepicted(log: seq<Operation>, op: Operation, isLocal: string -> bool)
    requires Depicted(Run(log, isLocal), log, isLocal) && Sound(Run(log, isLocal)) && op.Revision?
    ensures Depicted(Step(Run(log, isLocal), op, isLocal), log + [op], isLocal)
  {
    hide Run, WithEditor;
    var v, t, longer := Run(log, isLocal), Step(Run(log, isLocal), op, isLocal), log + [op];
    assert longer[..|longer| - 1] == log;
    UniqueMembers(v.recent);
    assert |t.recent| == |v.recent|;
    forall i | 0 <= i < |t.recent|
      ensures t.recent[i].editorId == v.recent[i].editorId
      ensures Image(longer, t.recent[i].editorId, isLocal) == Some(t.recent[i])
    {
      assert v.recent[i] in v.recent;
    }
    assert t.partial == v.partial;
    forall id: nat | !t.partial && Image(longer, id, isLocal).Some? ensures Holds(t, id) {
      assert Image(log, id, isLocal).Some?;
      assert Holds(v, id);
      var i :| 0 <= i < |v.recent| && v.recent[i].editorId == id;
      assert t.recent[i].editorId == id;
    }
  }

  /**
    In every history each document held is the one last inserted for its editor,
    with every revision since, and has not been removed; and a complete registry
    holds all of those.
   */
  lemma {:induction false} DepictedOnRuns(log: seq<Operation>, isLocal: string -> bool)
    ensures Depicted(Run(log, isLocal), log, isLocal)
  {
    hide Sound, Insert, MarkActive, Remove, Update, WithEditor, WithUri, Depicted;
    if log == [] {
      NothingDepicted(isLocal);
    } else {
      var before, op := log[..|log| - 1], log[|log| - 1];
      assert log == before + [op];
      DepictedOnRuns(before, isLocal);
      SoundOnRuns(before, isLocal);
      match op
      case Insertion(d) => InsertionDepicted(before, d, isLocal);
      case Activation(id) => ActivationDepicted(before, id, isLocal);
      case EditorRemoval(id) => RemovalDepicted(before, op, WithEditor(Run(before, isLocal).recent, id), isLocal);
      case UriRemoval(uri) => RemovalDepicted(before, op, WithUri(Run(before, isLocal).recent, uri), isLocal);
      case Revision(_, _, _, _, _) => RevisionDepicted(before, op, isLocal);
      case Loss => LossDepicted(before, isLocal);
      case Clearing => ClearingDepicted(before, isLocal);
    }
  }

  lemma NothingDepicted(isLocal: string -> bool)
    ensures Depicted(Run([], isLocal), [], isLocal)
  {
  }

  lemma LossDepicted(log: seq<Operation>, isLocal: string -> bool)
    requires Depicted(Run(log, isLocal), log, isLocal)
    ensures Depicted(Run(log, isLocal).(partial := true), log + [Loss], isLocal)
  {
    hide Run;
    assert (log + [Loss])[..|log|] == log;
  }

  lemma ClearingDepicted(log: seq<Operation>, isLocal: string -> bool)
    ensures Depicted(Clear(Run(log, isLocal)), log + [Clearing], isLocal)
  {
    hide Run;
    assert (log + [Clearing])[..|log|] == log;
  }

  /** A registry is partial from an upstream loss or an eviction on, until it is cleared, and not otherwise. */
  lemma PartialIff(v: Lru, op: Operation, isLocal: string -> bool)
    ensures Step(v, op, isLocal).partial
       <==> op.Loss? || (v.partial && !op.Clearing?)
            || (op.Insertion? && Full(v.recent) && Uses(v, op, op.d.editorId, isLocal))
  {
    hide WithEditor, WithUri, Without, Refusal, Uses;
    if op.Insertion? {
      RefusalMeans(v, op.d, isLocal);
    }
  }

  /** Inserting costs a full registry its head and no other document. */
  lemma InsertionSpares(v: Lru, d: SynchronizedDocument, isLocal: string -> bool)
    ensures forall e <- v.recent :: e in Insert(v, d, isLocal).recent || (Full(v.recent) && e == v.recent[0])
    ensures |Insert(v, d, isLocal).recent| >= |v.recent|
  {
    hide Refusal;
    assert v.recent != [] ==> v.recent == [v.recent[0]] + v.recent[1..];
  }

  /** A refusal gives the first reason that holds. */
  lemma RefusalIsTrue(v: Lru, d: SynchronizedDocument, isLocal: string -> bool)
    ensures match Refusal(v, d, isLocal)
            case Some(NonFileUri) => !isLocal(d.uri)
            case Some(DuplicateEditorId) => isLocal(d.uri) && Holds(v, d.editorId)
            case Some(DuplicateUri) => isLocal(d.uri) && !Holds(v, d.editorId) && exists e <- v.recent :: e.uri == d.uri
            case None => Uses(v, Insertion(d), d.editorId, isLocal)
  {
    hide WithEditor, WithUri, Uses;
    HoldsMeans(v, d.editorId);
    RefusalMeans(v, d, isLocal);
    if Refusal(v, d, isLocal) == Some(DuplicateUri) {
      assert WithUri(v.recent, d.uri).value in v.recent;
    }
  }

  /** An insertion counts in the revision once for the document that came and once for one that went. */
  lemma InsertionCounts(v: Lru, d: SynchronizedDocument, isLocal: string -> bool)
    requires v.revision + 2 <= U128_MAX && Refusal(v, d, isLocal).None?
    ensures var t := Insert(v, d, isLocal);
            && |t.recent| <= |v.recent| + 1
            && t.revision == v.revision + 1 + (|v.recent| + 1 - |t.recent|)
  {
    hide Refusal;
  }
}
