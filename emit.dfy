/**
 * What `make_yaml` hands over for printing (src/App.tsx): the normalised entry
 * wrapped as `{ [label]: … }`, with the replacer given to `YAML.stringify`
 * applied to every value of the tree. The printing of the tree as YAML text is
 * not modelled; this is the tree the printer walks.
 */
module Emitter {
  import opened Wrappers
  import opened People
  import opened Entries
  import opened Normalizer

  /** The values the replacer turns into `undefined`: `""`, `null` and an empty array. */
  predicate Dropped(v: Value) {
    v == Str("") || v == Null || v == Seq([])
  }

  /** `k.replace(/_/g, "-")`. */
  function RewriteKey(k: string): (r: string)
    ensures |r| == |k|
    ensures forall i | 0 <= i < |k| :: r[i] == if k[i] == '_' then '-' else k[i]
    ensures '_' !in r
  {
    seq(|k|, i requires 0 <= i < |k| => if k[i] == '_' then '-' else k[i])
  }

  /** The replacer applied to a value that is kept and, through the YAML library's walk,
      to everything below it: an object gets its keys rewritten and loses the entries
      whose value the replacer drops; an array keeps its length, a dropped element
      becoming `null`; anything else is kept as it is. Two keys of one object that rewrite
      to the same name (`a_b` and `a-b`) both stay here, where `Object.fromEntries` keeps
      only the later one; the entry mappings `Normalize` builds have no such pair
      (`EntryKeysHaveNoHyphen`, `RewriteKeyInjective`), but the lemmas about `Emit` in
      general range over such trees too. */
  function Emit(v: Value): Value
    decreases v
  {
    match v
    case Seq(items) => Seq(EmitItems(items))
    case Map(es) => Map(EmitFields(es))
    case _ => v
  }

  function EmitItems(items: seq<Value>): (r: seq<Value>)
    ensures |r| == |items|
    ensures forall i | 0 <= i < |items| :: r[i] == if Dropped(items[i]) then Null else Emit(items[i])
    decreases items
  {
    if items == [] then []
    else
      var rest := EmitItems(items[1..]);
      assert forall i | 1 <= i < |items| :: items[i] == items[1..][i - 1];
      [if Dropped(items[0]) then Null else Emit(items[0])] + rest
  }

  function EmitFields(es: seq<Field>): seq<Field>
    decreases es
  {
    if es == [] then []
    else if Dropped(es[0].value) then EmitFields(es[1..])
    else [Field(RewriteKey(es[0].key), Emit(es[0].value))] + EmitFields(es[1..])
  }

  /** `label() || "label"`. */
  function LabelOrDefault(label_: string): (r: string)
    ensures r != ""
    ensures label_ != "" ==> r == label_
    ensures label_ == "" ==> r == "label"
  {
    if label_ == "" then "label" else label_
  }

  /** `make_yaml` up to printing, as written for the label: `{ [label]: preprocess(data) }`
      under the replacer, which the YAML library also applies to this outer object, so the
      label's `_` become `-` as well. Persons are rendered by the corrected rule of
      `Normalize`; `EmittedToggledPerson` gives a toggled person's output as written. */
  function MakeYaml(label_: string, e: EntryData): Value {
    Emit(Map([Field(LabelOrDefault(label_), Normalize(e))]))
  }

  /** `make_yaml` as intended: the label exactly as typed (blank meaning `label`) over the
      processed entry; the key rewrite is meant for the entry's field names only. */
  function MakeYamlKeepingLabel(label_: string, e: EntryData): (r: Value)
    ensures r.Map? && |r.entries| == 1
    ensures r.entries[0].key == LabelOrDefault(label_) && r.entries[0].value == Emit(Normalize(e))
  {
    Map([Field(LabelOrDefault(label_), Emit(Normalize(e)))])
  }

  // ---------------------------------------------------------------------------
  // What the emitted tree looks like

  /** A tree the replacer leaves alone: no object key holds `_`, no object value is
      `""`, `null` or `[]`, and no array element is `""` or `[]`. */
  predicate Clean(v: Value)
    decreases v
  {
    match v
    case Seq(items) => CleanItems(items)
    case Map(es) => CleanFields(es)
    case _ => true
  }

  predicate CleanItems(items: seq<Value>)
    decreases items
  {
    items == [] || (items[0] != Str("") && items[0] != Seq([]) && Clean(items[0]) && CleanItems(items[1..]))
  }

  predicate CleanFields(es: seq<Field>)
    decreases es
  {
    es == [] || ('_' !in es[0].key && !Dropped(es[0].value) && Clean(es[0].value) && CleanFields(es[1..]))
  }

  /** Emitting a value that is kept never yields one the replacer would drop. */
  lemma EmitKeepsKept(v: Value)
    requires !Dropped(v)
    ensures !Dropped(Emit(v))
  {
    if v.Seq? {
      assert |EmitItems(v.items)| == |v.items|;
    }
  }

  /** Everything the replacer produces is clean. */
  lemma {:induction false} EmitIsClean(v: Value)
    ensures Clean(Emit(v))
    decreases v
  {
    match v
    case Seq(items) => EmitItemsClean(items);
    case Map(es) => EmitFieldsClean(es);
    case _ =>
  }

  lemma {:induction false} EmitItemsClean(items: seq<Value>)
    ensures CleanItems(EmitItems(items))
    decreases items
  {
    if items != [] {
      EmitItemsClean(items[1..]);
      if !Dropped(items[0]) {
        EmitIsClean(items[0]);
        EmitKeepsKept(items[0]);
      }
    }
  }

  lemma {:induction false} EmitFieldsClean(es: seq<Field>)
    ensures CleanFields(EmitFields(es))
    decreases es
  {
    if es != [] {
      EmitFieldsClean(es[1..]);
      if !Dropped(es[0].value) {
        EmitIsClean(es[0].value);
        EmitKeepsKept(es[0].value);
      }
    }
  }

  lemma RewriteKeyClean(k: string)
    requires '_' !in k
    ensures RewriteKey(k) == k
  {
  }

  /** The replacer leaves a clean tree as it is. */
  lemma {:induction false} EmitFixesClean(v: Value)
    requires Clean(v)
    ensures Emit(v) == v
    decreases v
  {
    match v
    case Seq(items) => EmitItemsFixClean(items);
    case Map(es) => EmitFieldsFixClean(es);
    case _ =>
  }

  lemma {:induction false} EmitItemsFixClean(items: seq<Value>)
    requires CleanItems(items)
    ensures EmitItems(items) == items
    decreases items
  {
    if items != [] {
      EmitItemsFixClean(items[1..]);
      if items[0] != Null {
        EmitFixesClean(items[0]);
      }
    }
  }

  lemma {:induction false} EmitFieldsFixClean(es: seq<Field>)
    requires CleanFields(es)
    ensures EmitFields(es) == es
    decreases es
  {
    if es != [] {
      EmitFieldsFixClean(es[1..]);
      EmitFixesClean(es[0].value);
      RewriteKeyClean(es[0].key);
    }
  }

  /** Applying the replacer's walk a second time changes nothing. */
  lemma EmitIdempotent(v: Value)
    ensures Emit(Emit(v)) == Emit(v)
  {
    EmitIsClean(v);
    EmitFixesClean(Emit(v));
  }

  /** An object's emitted entries are exactly its kept entries, with rewritten keys and emitted values. */
  lemma {:induction false} EmitFieldsMembers(es: seq<Field>, k: string, x: Value)
    ensures Field(k, x) in EmitFields(es)
        <==> exists f | f in es :: !Dropped(f.value) && RewriteKey(f.key) == k && Emit(f.value) == x
    decreases es
  {
    if es != [] {
      EmitFieldsMembers(es[1..], k, x);
      if Field(k, x) in EmitFields(es) && !Dropped(es[0].value) && Field(k, x) != Field(RewriteKey(es[0].key), Emit(es[0].value)) {
        assert Field(k, x) in EmitFields(es[1..]);
      }
      if exists f | f in es :: !Dropped(f.value) && RewriteKey(f.key) == k && Emit(f.value) == x {
        var f :| f in es && !Dropped(f.value) && RewriteKey(f.key) == k && Emit(f.value) == x;
        if f != es[0] {
          assert f in es[1..];
        }
      }
    }
  }

  /** Rewriting is one-to-one on keys without `-`, so no two entry keys meet after it. */
  lemma RewriteKeyInjective(a: string, b: string)
    requires '-' !in a && '-' !in b && RewriteKey(a) == RewriteKey(b)
    ensures a == b
  {
    forall i | 0 <= i < |a| ensures a[i] == b[i] {
      assert RewriteKey(a)[i] == RewriteKey(b)[i];
    }
  }

  lemma EntryKeysHaveNoHyphen()
    ensures forall i | 0 <= i < |EntryKeys| :: '-' !in EntryKeys[i]
  {
  }

  /** The emitted entry holds, under the rewritten key, every field of the entry that the
      archive gate lets through and whose normalised value the replacer keeps, and nothing else. */
  lemma EmittedField(e: EntryData, k: string, x: Value)
    requires k in EntryKeys
    ensures Emit(Normalize(e)).Map?
    ensures Field(RewriteKey(k), x) in Emit(Normalize(e)).entries
        <==> (e.archive != "" || (k != "archive_location" && k != "call_number"))
             && !Dropped(FieldValue(e, k)) && x == Emit(FieldValue(e, k))
  {
    var es := Normalize(e).entries;
    EmitFieldsMembers(es, RewriteKey(k), x);
    EntryKeysHaveNoHyphen();
    if Field(RewriteKey(k), x) in Emit(Normalize(e)).entries {
      var f :| f in es && !Dropped(f.value) && RewriteKey(f.key) == RewriteKey(k) && Emit(f.value) == x;
      NormalizeMembers(e, f);
      RewriteKeyInjective(f.key, k);
    }
    NormalizeMembers(e, Field(k, FieldValue(e, k)));
  }

  /** Every key of the emitted entry is the rewritten key of a field of the entry. */
  lemma EmittedKeys(e: EntryData, f: Field)
    requires f in Emit(Normalize(e)).entries
    ensures exists k | k in EntryKeys :: f.key == RewriteKey(k)
  {
    EmitFieldsMembers(Normalize(e).entries, f.key, f.value);
    var g :| g in Normalize(e).entries && !Dropped(g.value) && RewriteKey(g.key) == f.key && Emit(g.value) == f.value;
    NormalizeMembers(e, g);
  }

  /** The output is a single-key mapping from the label, blank meaning `"label"`, with
      its `_` rewritten, to the emitted entry. */
  lemma MakeYamlShape(label_: string, e: EntryData)
    ensures MakeYaml(label_, e) == Map([Field(RewriteKey(LabelOrDefault(label_)), Emit(Normalize(e)))])
    ensures MakeYaml(label_, e).entries[0].key != "" && '_' !in MakeYaml(label_, e).entries[0].key
  {
    assert EmitFields([Field(LabelOrDefault(label_), Normalize(e))])
        == [Field(RewriteKey(LabelOrDefault(label_)), Emit(Normalize(e)))] + EmitFields([]);
  }

  /** The written and the intended document agree exactly when the label has no `_`. */
  lemma MakeYamlKeepsLabelIff(label_: string, e: EntryData)
    ensures MakeYaml(label_, e) == MakeYamlKeepingLabel(label_, e) <==> '_' !in LabelOrDefault(label_)
  {
    MakeYamlShape(label_, e);
    if '_' !in LabelOrDefault(label_) {
      RewriteKeyClean(LabelOrDefault(label_));
    } else {
      assert MakeYaml(label_, e).entries[0].key != MakeYamlKeepingLabel(label_, e).entries[0].key;
    }
  }

  lemma RewriteSmith2020()
    ensures RewriteKey("smith_2020") == "smith-2020"
  {
    var k := "smith_2020";
    assert k[0] == 's' && k[1] == 'm' && k[2] == 'i' && k[3] == 't' && k[4] == 'h';
    assert k[5] == '_' && k[6] == '2' && k[7] == '0' && k[8] == '2' && k[9] == '0';
  }

  /** The label `smith_2020` is written as `smith-2020`, so a citation of `smith_2020`
      finds no entry; the intended document keeps `smith_2020`. */
  lemma SnakeCaseLabelRewritten(e: EntryData)
    ensures MakeYaml("smith_2020", e) == Map([Field("smith-2020", Emit(Normalize(e)))])
    ensures MakeYamlKeepingLabel("smith_2020", e) == Map([Field("smith_2020", Emit(Normalize(e)))])
  {
    MakeYamlShape("smith_2020", e);
    RewriteSmith2020();
  }

  /** A parent shows up under `parent`, emitted by the same rules, and a detached one leaves no key. */
  lemma EmittedParent(e: EntryData, x: Value)
    ensures Field("parent", x) in Emit(Normalize(e)).entries
        <==> e.parent.Some? && x == Emit(Normalize(e.parent.value))
  {
    assert EntryKeys[4] == "parent";
    assert RewriteKey("parent") == "parent";
    EmittedField(e, "parent", x);
  }

  lemma RewriteArchiveLocation()
    ensures RewriteKey("archive_location") == "archive-location"
  {
    var a := "archive_location";
    assert a[0] == 'a' && a[1] == 'r' && a[2] == 'c' && a[3] == 'h' && a[4] == 'i' && a[5] == 'v';
    assert a[6] == 'e' && a[7] == '_' && a[8] == 'l' && a[9] == 'o' && a[10] == 'c' && a[11] == 'a';
    assert a[12] == 't' && a[13] == 'i' && a[14] == 'o' && a[15] == 'n';
  }

  lemma RewriteCallNumber()
    ensures RewriteKey("call_number") == "call-number"
  {
    var c := "call_number";
    assert c[0] == 'c' && c[1] == 'a' && c[2] == 'l' && c[3] == 'l' && c[4] == '_' && c[5] == 'n';
    assert c[6] == 'u' && c[7] == 'm' && c[8] == 'b' && c[9] == 'e' && c[10] == 'r';
  }

  lemma RewritePageRange()
    ensures RewriteKey("page_range") == "page-range"
  {
    var p := "page_range";
    assert p[0] == 'p' && p[1] == 'a' && p[2] == 'g' && p[3] == 'e' && p[4] == '_';
    assert p[5] == 'r' && p[6] == 'a' && p[7] == 'n' && p[8] == 'g' && p[9] == 'e';
  }

  /** `archive-location` appears only beside an archive, and only when set. */
  lemma EmittedArchiveLocation(e: EntryData, x: Value)
    ensures Field("archive-location", x) in Emit(Normalize(e)).entries
        <==> e.archive != "" && e.archive_location != "" && x == Str(e.archive_location)
  {
    assert EntryKeys[25] == "archive_location";
    RewriteArchiveLocation();
    EmittedField(e, "archive_location", x);
  }

  /** So does `call-number`. */
  lemma EmittedCallNumber(e: EntryData, x: Value)
    ensures Field("call-number", x) in Emit(Normalize(e)).entries
        <==> e.archive != "" && e.call_number != "" && x == Str(e.call_number)
  {
    assert EntryKeys[9] == "call_number";
    RewriteCallNumber();
    EmittedField(e, "call_number", x);
  }

  /** `page_range` is written as `page-range`, as a number when it is all digits, and not at all when empty. */
  lemma EmittedPageRange(e: EntryData, x: Value)
    ensures Field("page-range", x) in Emit(Normalize(e)).entries
        <==> e.page_range != "" && x == TryNumeric(e.page_range)
  {
    assert EntryKeys[17] == "page_range";
    RewritePageRange();
    EmittedField(e, "page_range", x);
  }

  lemma RewriteCombinedName()
    ensures RewriteKey("combined_name") == "combined-name"
  {
    var c := "combined_name";
    assert c[0] == 'c' && c[1] == 'o' && c[2] == 'm' && c[3] == 'b' && c[4] == 'i' && c[5] == 'n' && c[6] == 'e';
    assert c[7] == 'd' && c[8] == '_' && c[9] == 'n' && c[10] == 'a' && c[11] == 'm' && c[12] == 'e';
  }

  /** A combined name toggled to fields and back under no further edit: as written, the output
      carries the old text twice, under `combined-name` and under `name`; the intended
      rendering writes only `name`. */
  lemma EmittedToggledPerson(s: string)
    requires s != ""
    ensures Emit(RenderPersonAsWritten(TogglePerson(Combined(s))))
         == Map([Field("combined-name", Str(s)), Field("name", Str(s))])
    ensures Emit(RenderPerson(TogglePerson(Combined(s)))) == Map([Field("name", Str(s))])
  {
    ToggledPersonLeaks(s);
    RewriteCombinedName();
    RewriteKeyClean("name");
    var blank := [Field("given_name", Str("")), Field("prefix", Str("")), Field("suffix", Str("")), Field("alias", Str(""))];
    assert EmitFields(blank) == [] by {
      assert blank[1..][1..][1..][1..] == [];
    }
    var named := [Field("name", Str(s))] + blank;
    assert EmitFields(named) == [Field("name", Str(s))] + EmitFields(blank) by {
      assert named[1..] == blank;
    }
    var all := [Field("combined_name", Str(s))] + named;
    assert EmitFields(all) == [Field("combined-name", Str(s))] + EmitFields(named) by {
      assert all[1..] == named;
    }
    assert RenderPersonAsWritten(TogglePerson(Combined(s))) == Map(all);
  }

  // ---------------------------------------------------------------------------
  // Single fields of the emitted entry

  /** The type is always written, under its name. */
  lemma EmittedType(e: EntryData)
    ensures Field("type", Str(TypeName(e.type_))) in Emit(Normalize(e)).entries
  {
    assert EntryKeys[0] == "type";
    RewriteKeyClean("type");
    TypeNameNonEmpty(e.type_);
    EmittedField(e, "type", Str(TypeName(e.type_)));
  }

  /** A set title is written as it is. */
  lemma EmittedTitle(e: EntryData)
    requires e.title != ""
    ensures Field("title", Str(e.title)) in Emit(Normalize(e)).entries
  {
    assert EntryKeys[1] == "title";
    RewriteKeyClean("title");
    EmittedField(e, "title", Str(e.title));
  }

  /** A set date is written as it is, never as a number. */
  lemma EmittedDate(e: EntryData)
    requires e.date != ""
    ensures Field("date", Str(e.date)) in Emit(Normalize(e)).entries
  {
    assert EntryKeys[3] == "date";
    RewriteKeyClean("date");
    EmittedField(e, "date", Str(e.date));
  }

  /** A sole author with a combined name is written as that bare string, not as a list. */
  lemma EmittedSoleAuthor(e: EntryData, s: string)
    requires e.author == [Combined(s)] && s != ""
    ensures Field("author", Str(s)) in Emit(Normalize(e)).entries
  {
    assert EntryKeys[2] == "author";
    RewriteKeyClean("author");
    EmittedField(e, "author", Str(s));
  }

  /** A sole editor left at its empty default is not written at all. */
  lemma EmittedNoDefaultEditor(e: EntryData, x: Value)
    requires e.editor == [DefaultPerson()]
    ensures Field("editor", x) !in Emit(Normalize(e)).entries
  {
    assert EntryKeys[7] == "editor";
    RewriteKeyClean("editor");
    EmittedField(e, "editor", x);
  }

  /** A publisher without a location is written as its bare name. */
  lemma EmittedBarePublisher(e: EntryData)
    requires e.publisher.name != "" && e.publisher.location == ""
    ensures Field("publisher", Str(e.publisher.name)) in Emit(Normalize(e)).entries
  {
    assert EntryKeys[10] == "publisher";
    RewriteKeyClean("publisher");
    EmittedField(e, "publisher", Str(e.publisher.name));
  }

  /** The entry of the worked example: a book "Example" by Jane Doe, 2020, published by Acme. */
  predicate IsDoe(e: EntryData) {
    e == DefaultEntryData().(type_ := Book, title := "Example", author := [Combined("Jane Doe")],
                             date := "2020", publisher := Publisher("Acme", ""))
  }

  /** The worked example, under the label `doe2020`. */
  lemma Doe2020(e: EntryData)
    requires IsDoe(e)
    ensures MakeYaml("doe2020", e) == Map([Field("doe2020", Emit(Normalize(e)))])
    ensures var doc := Emit(Normalize(e)).entries;
            Field("type", Str("book")) in doc && Field("title", Str("Example")) in doc
            && Field("author", Str("Jane Doe")) in doc && Field("date", Str("2020")) in doc
            && Field("publisher", Str("Acme")) in doc
    ensures forall x :: Field("editor", x) !in Emit(Normalize(e)).entries
    ensures forall x :: Field("parent", x) !in Emit(Normalize(e)).entries
  {
    DoeLabel(e);
    DoeWritten(e);
    DoeOmitted(e);
  }

  lemma DoeWritten(e: EntryData)
    requires e.type_ == Book && e.title == "Example" && e.date == "2020"
    requires e.author == [Combined("Jane Doe")] && e.publisher == Publisher("Acme", "")
    ensures var doc := Emit(Normalize(e)).entries;
            Field("type", Str("book")) in doc && Field("title", Str("Example")) in doc
            && Field("author", Str("Jane Doe")) in doc && Field("date", Str("2020")) in doc
            && Field("publisher", Str("Acme")) in doc
  {
    var doc := Emit(Normalize(e)).entries;
    assert Field("type", Str("book")) in doc by { EmittedType(e); }
    assert Field("title", Str("Example")) in doc by { EmittedTitle(e); }
    assert Field("author", Str("Jane Doe")) in doc by { EmittedSoleAuthor(e, "Jane Doe"); }
    assert Field("date", Str("2020")) in doc by { EmittedDate(e); }
    assert Field("publisher", Str("Acme")) in doc by { EmittedBarePublisher(e); }
  }

  lemma DoeOmitted(e: EntryData)
    requires e.editor == [DefaultPerson()] && e.parent == None
    ensures forall x :: Field("editor", x) !in Emit(Normalize(e)).entries
    ensures forall x :: Field("parent", x) !in Emit(Normalize(e)).entries
  {
    forall x ensures Field("editor", x) !in Emit(Normalize(e)).entries {
      EmittedNoDefaultEditor(e, x);
    }
    forall x ensures Field("parent", x) !in Emit(Normalize(e)).entries {
      EmittedParent(e, x);
    }
  }

  lemma DoeLabel(e: EntryData)
    ensures MakeYaml("doe2020", e) == Map([Field("doe2020", Emit(Normalize(e)))])
  {
    MakeYamlShape("doe2020", e);
    RewriteKeyClean("doe2020");
  }
}
