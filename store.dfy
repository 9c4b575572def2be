/**
 * The state of the page (src/App.tsx): the entry label and the entry store,
 * with the edits the buttons and inputs of `App`, `Entry` and
 * `SerialNumberInput` make to them. An edit deep in the parent chain goes
 * through nested `child_setter(props.set, "parent")` setters; here it is
 * `ReplaceAt` at that depth.
 */
module Store {
  import opened Wrappers
  import opened People
  import opened Entries
  import opened Normalizer
  import opened Emitter

  // ---------------------------------------------------------------------------
  // The edits, as values

  /** "Clear fields": a fresh default entry of the same type. */
  function Cleared(e: EntryData): (r: EntryData)
    ensures r.type_ == e.type_ && r.parent == None
    ensures r.author == [DefaultPerson()] && r.editor == [DefaultPerson()] && r.affiliated == []
    ensures r.title == r.date == r.archive == r.note == ""
    ensures r.(type_ := Misc) == DefaultEntryData()
  {
    DefaultEntryData().(type_ := e.type_)
  }

  /** Two entries clear to the same entry exactly when they have the same type. */
  lemma ClearedKeepsOnlyType(e1: EntryData, e2: EntryData)
    ensures Cleared(e1) == Cleared(e2) <==> e1.type_ == e2.type_
  {
  }

  /** Clearing twice is clearing once. */
  lemma ClearedIdempotent(e: EntryData)
    ensures Cleared(Cleared(e)) == Cleared(e)
  {
  }

  /** "Add parent": the entry with a default parent of the kind its own kind calls for. */
  function WithNewParent(e: EntryData): (r: EntryData)
    ensures Own(r) == Own(e)
    ensures r.parent == Some(NewParent(e.type_))
  {
    e.(parent := Some(NewParent(e.type_)))
  }

  /** The entry with slot `k` of its serial number set to `v`. */
  function WithSerial(e: EntryData, k: SerialKind, v: string): (r: EntryData)
    ensures r.serial_number.Get(k) == v && r.serial_number.serial == e.serial_number.serial
    ensures forall k' :: k' != k ==> r.serial_number.Get(k') == e.serial_number.Get(k')
  {
    e.(serial_number := e.serial_number.With(k, v))
  }

  /** Adding a parent at the top of the chain lengthens it by one; the new top is a default
      entry of the parent kind, and every entry below keeps its own fields. */
  lemma AddParentEffect(e: EntryData, depth: nat, k: nat)
    requires depth < ChainLength(e) && At(e, depth).parent.None? && k <= depth
    ensures ChainLength(ReplaceAt(e, depth, WithNewParent(At(e, depth)))) == ChainLength(e) + 1
    ensures At(ReplaceAt(e, depth, WithNewParent(At(e, depth))), depth + 1) == NewParent(At(e, depth).type_)
    ensures Own(At(ReplaceAt(e, depth, WithNewParent(At(e, depth))), k)) == Own(At(e, k))
  {
    var r := ReplaceAt(e, depth, WithNewParent(At(e, depth)));
    if k < depth {
      ReplaceAtKeepsBelow(e, depth, WithNewParent(At(e, depth)), k);
    }
    AtNext(r, depth);
  }

  lemma {:induction false} AtNext(e: EntryData, depth: nat)
    requires depth + 1 < ChainLength(e)
    ensures At(e, depth + 1) == At(e, depth).parent.value
    decreases depth
  {
    if depth > 0 {
      AtNext(e.parent.value, depth - 1);
    }
  }

  /** Deleting a parent cuts the chain right above the entry and keeps the entries below. */
  lemma DeleteParentEffect(e: EntryData, depth: nat, k: nat)
    requires depth < ChainLength(e) && k <= depth
    ensures ChainLength(ReplaceAt(e, depth, Own(At(e, depth)))) == depth + 1
    ensures Own(At(ReplaceAt(e, depth, Own(At(e, depth))), k)) == Own(At(e, k))
  {
    if k < depth {
      ReplaceAtKeepsBelow(e, depth, Own(At(e, depth)), k);
    }
  }

  /** Deleting the parent that was just added gives the entry back. */
  lemma DeleteUndoesAdd(e: EntryData, depth: nat)
    requires depth < ChainLength(e) && At(e, depth).parent.None?
    ensures depth < ChainLength(ReplaceAt(e, depth, WithNewParent(At(e, depth))))
    ensures var added := ReplaceAt(e, depth, WithNewParent(At(e, depth)));
            ReplaceAt(added, depth, Own(At(added, depth))) == e
  {
    var a := At(e, depth);
    ReplaceAtTwice(e, depth, WithNewParent(a), Own(WithNewParent(a)));
    assert Own(WithNewParent(a)) == a;
    ReplaceAtSame(e, depth);
  }

  /** After the top entry's parent is deleted, the emitted entry has no `parent` key. */
  lemma DeletedParentNotEmitted(e: EntryData, x: Value)
    ensures Field("parent", x) !in Emit(Normalize(Own(e))).entries
  {
    EmittedParent(Own(e), x);
  }

  // ---------------------------------------------------------------------------
  // Serial-number prefix stripping

  /** The URL prefixes stripped from an identifier when its input is committed. */
  const SerialStrip: seq<string> := ["https://doi.org/", "https://dx.doi.org/", "https://arxiv.org/abs/"]

  /** The slot's value after the prefixes `ps` have been tried in order on the committed text
      `v`, starting from `cur`: each prefix that `v` starts with sets the slot to the rest of `v`. */
  function StripAfter(ps: seq<string>, v: string, cur: string): string
    decreases |ps|
  {
    if ps == [] then cur
    else
      var before := StripAfter(ps[..|ps| - 1], v, cur);
      if ps[|ps| - 1] <= v then v[|ps[|ps| - 1]|..] else before
  }

  /** The characters that tell the prefixes apart. */
  lemma PrefixMarks(v: string)
    ensures SerialStrip[0] <= v ==> v[8] == 'd' && v[9] == 'o'
    ensures SerialStrip[1] <= v ==> v[8] == 'd' && v[9] == 'x'
    ensures SerialStrip[2] <= v ==> v[8] == 'a'
  {
    if SerialStrip[0] <= v {
      assert v[8] == SerialStrip[0][8] && v[9] == SerialStrip[0][9];
    }
    if SerialStrip[1] <= v {
      assert v[8] == SerialStrip[1][8] && v[9] == SerialStrip[1][9];
    }
    if SerialStrip[2] <= v {
      assert v[8] == SerialStrip[2][8];
    }
  }

  /** The slot ends up as `v` without the one prefix it starts with, or keeps `cur` when it
      starts with none. */
  lemma StripSerial(v: string, cur: string)
    ensures SerialStrip[0] <= v ==> StripAfter(SerialStrip, v, cur) == v[16..]
    ensures SerialStrip[1] <= v ==> StripAfter(SerialStrip, v, cur) == v[19..]
    ensures SerialStrip[2] <= v ==> StripAfter(SerialStrip, v, cur) == v[22..]
    ensures !(SerialStrip[0] <= v) && !(SerialStrip[1] <= v) && !(SerialStrip[2] <= v)
            ==> StripAfter(SerialStrip, v, cur) == cur
  {
    PrefixMarks(v);
    assert SerialStrip[..2] == [SerialStrip[0], SerialStrip[1]];
    assert SerialStrip[..2][..1] == [SerialStrip[0]];
    assert [SerialStrip[0]][..0] == [];
    assert |SerialStrip[0]| == 16 && |SerialStrip[1]| == 19 && |SerialStrip[2]| == 22;
    var r0 := StripAfter([], v, cur);
    var r1 := StripAfter([SerialStrip[0]], v, cur);
    assert r1 == if SerialStrip[0] <= v then v[|SerialStrip[0]|..] else r0;
    var r2 := StripAfter(SerialStrip[..2], v, cur);
    assert r1 == if SerialStrip[0] <= v then v[16..] else cur;
    assert r2 == if SerialStrip[1] <= v then v[19..] else r1;
    assert StripAfter(SerialStrip, v, cur) == if SerialStrip[2] <= v then v[22..] else r2;
  }

  /** One write of the loop below: writing slot `k` of an entry already written there keeps
      only the newer value. */
  lemma StripStep(e: EntryData, depth: nat, e0: EntryData, k: SerialKind, c: string, x: string)
    requires depth < ChainLength(e)
    ensures depth < ChainLength(ReplaceAt(e, depth, WithSerial(e0, k, c)))
    ensures ReplaceAt(ReplaceAt(e, depth, WithSerial(e0, k, c)), depth, WithSerial(WithSerial(e0, k, c), k, x))
         == ReplaceAt(e, depth, WithSerial(e0, k, x))
  {
    WithTwice(e0.serial_number, k, c, x);
    ReplaceAtTwice(e, depth, WithSerial(e0, k, c), WithSerial(WithSerial(e0, k, c), k, x));
  }

  // ---------------------------------------------------------------------------
  // The page state

  class EntryStore {
    /** The `label` signal: the key the entry is emitted under. */
    var label_: string
    /** The `data` store: the entry with its parent chain. */
    var data: EntryData

    constructor ()
      ensures label_ == "" && data == DefaultEntryData()
    {
      label_ := "";
      data := DefaultEntryData();
    }

    /** What the page offers for copying, before it is printed as YAML text: the processed
        entry under the label as typed (the corrected `make_yaml`, see `Emitter.MakeYamlKeepingLabel`). */
    function Output(): (v: Value)
      reads this
      ensures v == Map([Field(LabelOrDefault(label_), Emit(Normalize(data)))])
      ensures '_' !in LabelOrDefault(label_) ==> v == MakeYaml(label_, data)
    {
      MakeYamlKeepsLabelIff(label_, data);
      MakeYamlKeepingLabel(label_, data)
    }

    /** "Clear fields". */
    method ClearFields()
      modifies this
      ensures data == Cleared(old(data)) && label_ == old(label_)
    {
      var newData := DefaultEntryData();
      newData := newData.(type_ := data.type_);
      data := newData;
    }

    /** "Add parent" on the entry `depth` steps up the chain, offered while it has none. */
    method AddParent(depth: nat)
      requires depth < ChainLength(data) && At(data, depth).parent.None?
      modifies this
      ensures data == ReplaceAt(old(data), depth, WithNewParent(At(old(data), depth)))
      ensures ChainLength(data) == ChainLength(old(data)) + 1 && label_ == old(label_)
    {
      AddParentEffect(data, depth, 0);
      var here := At(data, depth);
      var parent := DefaultEntryData();
      parent := parent.(type_ := DefaultParents(here.type_).GetOr(Misc));
      data := ReplaceAt(data, depth, here.(parent := Some(parent)));
    }

    /** The delete button of the parent of the entry `depth` steps up the chain. */
    method DeleteParent(depth: nat)
      requires depth + 1 < ChainLength(data)
      modifies this
      ensures data == ReplaceAt(old(data), depth, Own(At(old(data), depth)))
      ensures ChainLength(data) == depth + 1 && label_ == old(label_)
    {
      var here := At(data, depth);
      data := ReplaceAt(data, depth, here.(parent := None));
    }

    /** The change handler of the input for identifier `k` of the entry `depth` steps up
        the chain, given the committed text `v`. */
    method StripSerialPrefix(depth: nat, k: SerialKind, v: string)
      requires depth < ChainLength(data)
      modifies this
      ensures data == ReplaceAt(old(data), depth,
        WithSerial(At(old(data), depth), k, StripAfter(SerialStrip, v, At(old(data), depth).serial_number.Get(k))))
      ensures label_ == old(label_)
    {
      ghost var e0 := At(data, depth);
      ghost var cur := e0.serial_number.Get(k);
      WithTwice(e0.serial_number, k, cur, cur);
      ReplaceAtSame(data, depth);
      for i := 0 to |SerialStrip|
        invariant depth < ChainLength(data) && label_ == old(label_)
        invariant data == ReplaceAt(old(data), depth, WithSerial(e0, k, StripAfter(SerialStrip[..i], v, cur)))
      {
        var s := SerialStrip[i];
        ghost var c := StripAfter(SerialStrip[..i], v, cur);
        assert SerialStrip[..i + 1][..i] == SerialStrip[..i];
        if s <= v {
          var here := At(data, depth);
          StripStep(old(data), depth, e0, k, c, v[|s|..]);
          data := ReplaceAt(data, depth, WithSerial(here, k, v[|s|..]));
        }
      }
      assert SerialStrip[..|SerialStrip|] == SerialStrip;
    }
  }
}
