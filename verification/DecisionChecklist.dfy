/** The buy checklist: when a note counts as decided, over any history of saves. */
module DecisionChecklist {
  import opened Common
  import opened Text

  datatype ItemKey = Valuation | NewsOverheated | PortfolioConcentration | EarningsDisclosure

  const REQUIRED_KEYS := [Valuation, NewsOverheated, PortfolioConcentration, EarningsDisclosure]

  datatype Note = Note(memo: Option<string>, keys: seq<ItemKey>, decidedAt: Option<nat>)

  /** Notes are unique per user and asset. */
  type NoteId = (nat, nat)

  datatype Save = Save(id: NoteId, memo: Option<string>, keys: seq<ItemKey>, now: nat)

  datatype Response = Response(
    checked: seq<bool>, memo: Option<string>, checkedKeys: seq<ItemKey>, isComplete: bool, decidedAt: Option<nat>)

  datatype ChecklistError = AssetNotFound

  predicate HasText(memo: Option<string>) {
    memo.Some? && exists i :: 0 <= i < |memo.value| && !IsSpace(memo.value[i])
  }

  predicate Complete(memo: Option<string>, keys: seq<ItemKey>) {
    HasText(memo) && forall i :: 0 <= i < |REQUIRED_KEYS| ==> REQUIRED_KEYS[i] in keys
  }

  /** First occurrences, in order. */
  function Unique(keys: seq<ItemKey>): (r: seq<ItemKey>)
    ensures forall k :: k in r <==> k in keys
    ensures forall i, j :: 0 <= i < j < |r| ==> r[i] != r[j]
  {
    if keys == [] then []
    else
      var before := Unique(keys[..|keys| - 1]);
      var last := keys[|keys| - 1];
      assert keys == keys[..|keys| - 1] + [last];
      if last in before then before else before + [last]
  }

  function NextDecidedAt(existing: Option<Note>, complete: bool, now: nat): Option<nat> {
    if !complete then None
    else if existing.Some? && existing.value.decidedAt.Some? then existing.value.decidedAt
    else Some(now)
  }

  function Find(notes: map<NoteId, Note>, id: NoteId): Option<Note> {
    if id in notes then Some(notes[id]) else None
  }

  /** The table after a save; a save on an asset that does not exist is refused. */
  function SaveTo(notes: map<NoteId, Note>, assets: set<nat>, save: Save): map<NoteId, Note> {
    if save.id.1 !in assets then notes
    else
      var keys := Unique(save.keys);
      var decidedAt := NextDecidedAt(Find(notes, save.id), Complete(save.memo, keys), save.now);
      notes[save.id := Note(save.memo, keys, decidedAt)]
  }

  function ResponseFor(note: Option<Note>): Response {
    var keys := if note.Some? then note.value.keys else [];
    var memo := if note.Some? then note.value.memo else None;
    Response(
      seq(|REQUIRED_KEYS|, i requires 0 <= i < |REQUIRED_KEYS| => REQUIRED_KEYS[i] in keys),
      memo,
      CheckedOf(REQUIRED_KEYS, keys),
      Complete(memo, keys),
      if note.Some? then note.value.decidedAt else None)
  }

  function CheckedOf(required: seq<ItemKey>, keys: seq<ItemKey>): seq<ItemKey> {
    if required == [] then []
    else (if required[0] in keys then [required[0]] else []) + CheckedOf(required[1..], keys)
  }

  class DecisionChecklistService {
    const assets: set<nat>
    var notes: map<NoteId, Note>

    constructor (assets: set<nat>)
      ensures this.assets == assets && notes == map[]
    {
      this.assets := assets;
      notes := map[];
    }

    method SaveNote(save: Save) returns (response: Result<Response, ChecklistError>)
      modifies this
      ensures notes == SaveTo(old(notes), assets, save)
      ensures response == if save.id.1 in assets then Ok(ResponseFor(Find(notes, save.id))) else Err(AssetNotFound)
    {
      if save.id.1 !in assets {
        return Err(AssetNotFound);
      }
      var keys := Unique(save.keys);
      var existing := Find(notes, save.id);
      var decidedAt := NextDecidedAt(existing, Complete(save.memo, keys), save.now);
      notes := notes[save.id := Note(save.memo, keys, decidedAt)];
      response := Ok(ResponseFor(Find(notes, save.id)));
    }

    method GetChecklist(id: NoteId) returns (response: Result<Response, ChecklistError>)
      ensures response == if id.1 in assets then Ok(ResponseFor(Find(notes, id))) else Err(AssetNotFound)
    {
      if id.1 !in assets {
        return Err(AssetNotFound);
      }
      response := Ok(ResponseFor(Find(notes, id)));
    }
  }

  // ----- Over a history of saves -----

  function SaveAll(saves: seq<Save>, assets: set<nat>): map<NoteId, Note> {
    if saves == [] then map[] else SaveTo(SaveAll(saves[..|saves| - 1], assets), assets, saves[|saves| - 1])
  }

  predicate SavesTo(save: Save, id: NoteId, assets: set<nat>) {
    save.id == id && id.1 in assets
  }

  /** The memo says something and all four items are checked. */
  predicate Full(memo: Option<string>, keys: seq<ItemKey>) {
    && memo.Some?
    && (exists i :: 0 <= i < |memo.value| && !IsSpace(memo.value[i]))
    && Valuation in keys && NewsOverheated in keys && PortfolioConcentration in keys && EarningsDisclosure in keys
  }

  lemma CompleteIsFull(memo: Option<string>, keys: seq<ItemKey>)
    ensures Complete(memo, keys) <==> Full(memo, keys)
  {
    assert REQUIRED_KEYS[0] == Valuation && REQUIRED_KEYS[1] == NewsOverheated;
    assert REQUIRED_KEYS[2] == PortfolioConcentration && REQUIRED_KEYS[3] == EarningsDisclosure;
  }

  predicate CompleteSave(save: Save) {
    Full(save.memo, save.keys)
  }

  /** Save `start` begins the unbroken streak of complete saves of `id` that the history ends with: it and every
      later save of `id` are complete, and the save of `id` before it, if any, is not. */
  ghost predicate StreakStart(saves: seq<Save>, assets: set<nat>, id: NoteId, start: int) {
    && 0 <= start < |saves|
    && SavesTo(saves[start], id, assets)
    && (forall i :: start <= i < |saves| && SavesTo(saves[i], id, assets) ==> CompleteSave(saves[i]))
    && (forall i :: LastSave(saves[..start], assets, id, i) ==> !CompleteSave(saves[i]))
  }

  /** The last save of `id` is number `i`. */
  ghost predicate LastSave(saves: seq<Save>, assets: set<nat>, id: NoteId, i: int) {
    && 0 <= i < |saves|
    && SavesTo(saves[i], id, assets)
    && forall j :: i < j < |saves| ==> !SavesTo(saves[j], id, assets)
  }

  /** What a stored note says about the history. */
  ghost predicate Remembers(saves: seq<Save>, assets: set<nat>, id: NoteId, note: Note) {
    && (exists i :: LastSave(saves, assets, id, i) && note.memo == saves[i].memo && note.keys == Unique(saves[i].keys))
    && (note.decidedAt.Some? <==> Full(note.memo, note.keys))
    && (note.decidedAt.Some? ==>
          exists start :: StreakStart(saves, assets, id, start) && note.decidedAt == Some(saves[start].now))
  }

  lemma OtherSaveKeepsStreak(saves: seq<Save>, save: Save, assets: set<nat>, id: NoteId, start: int)
    requires StreakStart(saves, assets, id, start)
    requires SavesTo(save, id, assets) ==> CompleteSave(save)
    ensures StreakStart(saves + [save], assets, id, start)
  {
    var all := saves + [save];
    assert forall i :: 0 <= i < |saves| ==> all[i] == saves[i];
    assert all[..start] == saves[..start];
  }

  lemma OtherSaveKeepsMemory(saves: seq<Save>, save: Save, assets: set<nat>, id: NoteId, note: Note)
    requires Remembers(saves, assets, id, note) && !SavesTo(save, id, assets)
    ensures Remembers(saves + [save], assets, id, note)
  {
    var all := saves + [save];
    assert forall i :: 0 <= i < |saves| ==> all[i] == saves[i];
    var i :| LastSave(saves, assets, id, i) && note.memo == saves[i].memo && note.keys == Unique(saves[i].keys);
    assert LastSave(all, assets, id, i);
    if note.decidedAt.Some? {
      var start :| StreakStart(saves, assets, id, start) && note.decidedAt == Some(saves[start].now);
      OtherSaveKeepsStreak(saves, save, assets, id, start);
    }
  }

  lemma CompleteUnique(save: Save)
    ensures CompleteSave(save) <==> Complete(save.memo, Unique(save.keys))
    ensures CompleteSave(save) <==> Full(save.memo, Unique(save.keys))
  {
    CompleteIsFull(save.memo, save.keys);
    CompleteIsFull(save.memo, Unique(save.keys));
  }

  /** A complete save after an incomplete one, or the first, begins a streak. */
  lemma NewStreak(saves: seq<Save>, save: Save, assets: set<nat>, id: NoteId)
    requires SavesTo(save, id, assets) && CompleteSave(save)
    requires forall i :: LastSave(saves, assets, id, i) ==> !CompleteSave(saves[i])
    ensures StreakStart(saves + [save], assets, id, |saves|)
  {
  }

  lemma OwnSaveRemembered(
    saves: seq<Save>, save: Save, assets: set<nat>, id: NoteId, existing: Option<Note>, after: Note)
    requires SavesTo(save, id, assets)
    requires existing.Some? ==> Remembers(saves, assets, id, existing.value)
    requires existing.None? ==> forall i :: 0 <= i < |saves| ==> !SavesTo(saves[i], id, assets)
    requires after == Note(save.memo, Unique(save.keys),
                           NextDecidedAt(existing, Complete(save.memo, Unique(save.keys)), save.now))
    ensures Remembers(saves + [save], assets, id, after)
  {
    var all := saves + [save];
    assert all[|saves|] == save;
    CompleteUnique(save);
    assert LastSave(all, assets, id, |saves|);
    if CompleteSave(save) {
      if existing.Some? && existing.value.decidedAt.Some? {
        var start :| StreakStart(saves, assets, id, start) && existing.value.decidedAt == Some(saves[start].now);
        OtherSaveKeepsStreak(saves, save, assets, id, start);
        assert all[start] == saves[start];
      } else {
        if existing.Some? {
          LastWasIncomplete(saves, assets, id, existing.value);
        }
        NewStreak(saves, save, assets, id);
      }
    }
  }

  lemma LastWasIncomplete(saves: seq<Save>, assets: set<nat>, id: NoteId, note: Note)
    requires Remembers(saves, assets, id, note) && note.decidedAt.None?
    ensures forall i :: LastSave(saves, assets, id, i) ==> !CompleteSave(saves[i])
  {
  }

  ghost predicate Faithful(saves: seq<Save>, assets: set<nat>, notes: map<NoteId, Note>, id: NoteId) {
    && (id in notes ==> Remembers(saves, assets, id, notes[id]))
    && (id !in notes ==> forall i :: 0 <= i < |saves| ==> !SavesTo(saves[i], id, assets))
  }

  /** Over every history of saves by any users on any assets: a note is stored exactly for those saved; it holds
      the last memo and keys; `decidedAt` is set exactly while they are complete, and is the clock at the first
      save of the current unbroken streak of complete saves. */
  lemma {:induction false} DecidedSinceStreakBegan(saves: seq<Save>, assets: set<nat>, id: NoteId)
    ensures Faithful(saves, assets, SaveAll(saves, assets), id)
  {
    if saves != [] {
      var n := |saves| - 1;
      var head, save := saves[..n], saves[n];
      DecidedSinceStreakBegan(head, assets, id);
      assert saves == head + [save];
      var before := SaveAll(head, assets);
      if SavesTo(save, id, assets) {
        OwnSaveRemembered(head, save, assets, id, Find(before, id), SaveAll(saves, assets)[id]);
      } else {
        assert Find(SaveAll(saves, assets), id) == Find(before, id);
        if id in before {
          OtherSaveKeepsMemory(head, save, assets, id, before[id]);
        }
      }
    }
  }

  // ----- What a user is shown -----

  /** The key first occurs at `p`. */
  predicate FirstAt(keys: seq<ItemKey>, key: ItemKey, p: nat) {
    p < |keys| && keys[p] == key && forall q :: 0 <= q < p ==> keys[q] != key
  }

  /** Stored keys are in the order in which they first came. */
  lemma {:induction false} UniqueInOrder(keys: seq<ItemKey>, i: nat, j: nat, p: nat, q: nat)
    requires i < j < |Unique(keys)|
    requires FirstAt(keys, Unique(keys)[i], p) && FirstAt(keys, Unique(keys)[j], q)
    ensures p < q
  {
    var n := |keys| - 1;
    var head := Unique(keys[..n]);
    assert Unique(keys)[i] in head;
    assert p < n by {
      var k :| 0 <= k < n && keys[..n][k] == Unique(keys)[i];
      assert keys[k] == Unique(keys)[i];
    }
    if j < |head| {
      assert Unique(keys)[j] in head;
      var k :| 0 <= k < n && keys[..n][k] == Unique(keys)[j];
      assert keys[k] == Unique(keys)[j];
      assert FirstAt(keys[..n], Unique(keys)[i], p) && FirstAt(keys[..n], Unique(keys)[j], q);
      UniqueInOrder(keys[..n], i, j, p, q);
    } else {
      assert keys[n] !in keys[..n];
      assert forall k :: 0 <= k < n ==> keys[k] == keys[..n][k];
    }
  }

  /** The four items with what is checked, the memo, and the instant of the decision, if any. */
  ghost predicate Shows(r: Response, memo: Option<string>, keys: seq<ItemKey>, decidedAt: Option<nat>) {
    && r.checked
       == [Valuation in keys, NewsOverheated in keys, PortfolioConcentration in keys, EarningsDisclosure in keys]
    && r.memo == memo
    && (forall key :: key in r.checkedKeys <==> key in keys)
    && (forall i, j :: 0 <= i < j < |r.checkedKeys| ==> Rank(r.checkedKeys[i]) < Rank(r.checkedKeys[j]))
    && (r.isComplete <==> Full(memo, keys))
    && r.decidedAt == decidedAt
  }

  /** The order in which the items are listed. */
  function Rank(key: ItemKey): nat {
    match key
    case Valuation => 0
    case NewsOverheated => 1
    case PortfolioConcentration => 2
    case EarningsDisclosure => 3
  }

  lemma CheckedInOrder(keys: seq<ItemKey>)
    ensures var checked := CheckedOf(REQUIRED_KEYS, keys);
            && (forall key :: key in checked <==> key in keys)
            && (forall i, j :: 0 <= i < j < |checked| ==> Rank(checked[i]) < Rank(checked[j]))
  {
    CheckedFrom(REQUIRED_KEYS, keys);
    forall key: ItemKey ensures key in REQUIRED_KEYS {
      AllRequired(key);
    }
  }

  lemma AllRequired(key: ItemKey)
    ensures key in REQUIRED_KEYS
  {
    assert REQUIRED_KEYS[Rank(key)] == key;
  }

  /** What is checked of the listed keys, in their order. */
  lemma {:induction false} CheckedFrom(required: seq<ItemKey>, keys: seq<ItemKey>)
    requires forall i, j :: 0 <= i < j < |required| ==> Rank(required[i]) < Rank(required[j])
    ensures var checked := CheckedOf(required, keys);
            && (forall key :: key in checked <==> key in keys && key in required)
            && (forall i, j :: 0 <= i < j < |checked| ==> Rank(checked[i]) < Rank(checked[j]))
  {
    if required != [] {
      CheckedFrom(required[1..], keys);
      var rest := CheckedOf(required[1..], keys);
      assert required == [required[0]] + required[1..];
      forall i | 0 <= i < |rest| ensures Rank(required[0]) < Rank(rest[i]) {
        assert rest[i] in rest;
        var k :| 0 <= k < |required| - 1 && required[1..][k] == rest[i];
        assert required[k + 1] == rest[i];
      }
    }
  }

  lemma ChecksShown(keys: seq<ItemKey>)
    ensures seq(|REQUIRED_KEYS|, i requires 0 <= i < |REQUIRED_KEYS| => REQUIRED_KEYS[i] in keys)
         == [Valuation in keys, NewsOverheated in keys, PortfolioConcentration in keys, EarningsDisclosure in keys]
  {
  }

  lemma ResponseShows(note: Option<Note>)
    ensures note.Some? ==> Shows(ResponseFor(note), note.value.memo, note.value.keys, note.value.decidedAt)
    ensures note.None? ==> Shows(ResponseFor(note), None, [], None)
  {
    var keys := if note.Some? then note.value.keys else [];
    CheckedInOrder(keys);
    ChecksShown(keys);
    CompleteIsFull(if note.Some? then note.value.memo else None, keys);
  }

  /** What a user is shown about an asset after any history of saves: nothing checked if none of them was theirs and
      accepted; otherwise what their last save said, complete exactly if that save was, and decided since the first
      save of the streak of complete ones that it ends. */
  lemma ShownAfterSaves(saves: seq<Save>, assets: set<nat>, id: NoteId)
    ensures var r := ResponseFor(Find(SaveAll(saves, assets), id));
            if forall i :: 0 <= i < |saves| ==> !SavesTo(saves[i], id, assets) then Shows(r, None, [], None)
            else exists i :: LastSave(saves, assets, id, i)
                          && Shows(r, saves[i].memo, saves[i].keys, r.decidedAt)
                          && (r.decidedAt.Some? <==> r.isComplete)
                          && (r.decidedAt.Some? ==>
                                exists start :: StreakStart(saves, assets, id, start)
                                             && r.decidedAt == Some(saves[start].now))
  {
    DecidedSinceStreakBegan(saves, assets, id);
    var note := Find(SaveAll(saves, assets), id);
    ResponseShows(note);
    if note.Some? {
      var i :| LastSave(saves, assets, id, i) && note.value.memo == saves[i].memo
            && note.value.keys == Unique(saves[i].keys);
      var r := ResponseFor(note);
      CompleteUnique(saves[i]);
      assert Shows(r, saves[i].memo, saves[i].keys, r.decidedAt);
    }
  }
}
