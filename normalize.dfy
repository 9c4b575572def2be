/**
 * The normaliser inside `make_yaml` (src/App.tsx): `try_numeric`,
 * `maybe_unwrap`, `preprocess_person` and `preprocess`, which turn an entry
 * into the generic tree that is handed to the YAML library.
 */
module Normalizer {
  import opened Wrappers
  import opened People
  import opened Entries

  /** A JavaScript value as the YAML library sees it: a string, a number, `null`,
      an array, or a plain object whose keys keep their insertion order. */
  datatype Value =
    | Str(s: string)
    | Int(n: nat)
    | Null
    | Seq(items: seq<Value>)
    | Map(entries: seq<Field>)

  datatype Field = Field(key: string, value: Value)

  /** The value under key `k` (the first one, as a JavaScript property read would find the only one). */
  function Lookup(es: seq<Field>, k: string): Option<Value> {
    if es == [] then None
    else if es[0].key == k then Some(es[0].value)
    else Lookup(es[1..], k)
  }

  /** A lookup finds nothing exactly when no entry has the key, and what it finds is an entry. */
  lemma {:induction false} LookupFound(es: seq<Field>, k: string)
    ensures Lookup(es, k).None? <==> forall f | f in es :: f.key != k
    ensures Lookup(es, k).Some? ==> Field(k, Lookup(es, k).value) in es
  {
    if es != [] {
      LookupFound(es[1..], k);
    }
  }

  /** The first entry with key `k` decides the lookup. */
  lemma {:induction false} LookupFirst(es: seq<Field>, i: nat, k: string)
    requires i < |es| && es[i].key == k
    requires forall j | 0 <= j < i :: es[j].key != k
    ensures Lookup(es, k) == Some(es[i].value)
  {
    if i > 0 {
      LookupFirst(es[1..], i - 1, k);
    }
  }

  /** JavaScript's `delete o[k]` on a plain object: the entries with key `k` go and every other entry stays. */
  function DeleteKey(es: seq<Field>, k: string): (r: seq<Field>)
    ensures forall f :: f in r <==> f in es && f.key != k
  {
    if es == [] then []
    else if es[0].key == k then DeleteKey(es[1..], k)
    else [es[0]] + DeleteKey(es[1..], k)
  }

  /** After `delete o[k]`, `o[k]` is gone and every other key reads as before. */
  lemma {:induction false} DeleteKeyLookup(es: seq<Field>, k: string, k': string)
    ensures Lookup(DeleteKey(es, k), k') == if k' == k then None else Lookup(es, k')
  {
    if es != [] {
      DeleteKeyLookup(es[1..], k, k');
      if es[0].key != k {
        assert DeleteKey(es, k) == [es[0]] + DeleteKey(es[1..], k);
      }
    }
  }

  // ---------------------------------------------------------------------------
  // try_numeric

  predicate IsDigit(c: char) {
    '0' <= c <= '9'
  }

  /** The test `/^[0-9]+$/`: one or more decimal digits and nothing else. */
  predicate IsNumeral(s: string) {
    |s| > 0 && forall i | 0 <= i < |s| :: IsDigit(s[i])
  }

  /** The number a string of decimal digits denotes (`parseInt`, without its precision limit). */
  function DigitsValue(s: string): nat
    requires forall i | 0 <= i < |s| :: IsDigit(s[i])
  {
    if s == [] then 0
    else
      assert IsDigit(s[|s| - 1]);
      10 * DigitsValue(s[..|s| - 1]) + (s[|s| - 1] as int - '0' as int)
  }

  function DigitChar(d: nat): (c: char)
    requires d < 10
    ensures IsDigit(c) && c as int - '0' as int == d
  {
    ('0' as int + d) as char
  }

  /** The canonical decimal numeral of `n`: the way a number is written out. */
  function Decimal(n: nat): (s: string)
    ensures IsNumeral(s)
  {
    if n < 10 then [DigitChar(n)] else Decimal(n / 10) + [DigitChar(n % 10)]
  }

  /** A numeral without leading zeros (the numerals `Decimal` produces). */
  predicate Canonical(s: string) {
    IsNumeral(s) && (s[0] != '0' || |s| == 1)
  }

  /** `try_numeric`: a string of decimal digits becomes the number it denotes;
      any other string, the empty one included, is kept as it is. */
  function TryNumeric(s: string): (r: Value)
    ensures r.Int? || r.Str?
    ensures r.Int? <==> IsNumeral(s)
    ensures r.Str? ==> r.s == s
    ensures r.Int? ==> r.n == DigitsValue(s)
  {
    if IsNumeral(s) then Int(DigitsValue(s)) else Str(s)
  }

  /** Reading back what `Decimal` writes gives the number. */
  lemma {:induction false} DigitsValueOfDecimal(n: nat)
    ensures DigitsValue(Decimal(n)) == n
  {
    if n >= 10 {
      var s := Decimal(n);
      DigitsValueOfDecimal(n / 10);
      assert s[..|s| - 1] == Decimal(n / 10);
    }
  }

  /** The numeral of any number is turned back into that number. */
  lemma TryNumericOfDecimal(n: nat)
    ensures TryNumeric(Decimal(n)) == Int(n)
  {
    DigitsValueOfDecimal(n);
  }

  lemma {:induction false} DecimalIsCanonical(n: nat)
    ensures Canonical(Decimal(n))
  {
    if n >= 10 {
      DecimalIsCanonical(n / 10);
    }
  }

  lemma {:induction false} LeadingDigitPositive(s: string)
    requires Canonical(s) && s[0] != '0'
    ensures DigitsValue(s) > 0
  {
    if |s| > 1 {
      var init := s[..|s| - 1];
      assert init[0] == s[0];
      LeadingDigitPositive(init);
    }
  }

  /** `try_numeric` loses nothing exactly on canonical numerals: writing the number
      back out gives the same text unless the numeral had leading zeros (so "007" becomes 7). */
  lemma {:induction false} TryNumericLossless(s: string)
    requires IsNumeral(s)
    ensures Decimal(TryNumeric(s).n) == s <==> Canonical(s)
  {
    var n := DigitsValue(s);
    if Canonical(s) {
      if |s| > 1 {
        var init := s[..|s| - 1];
        assert init[0] == s[0];
        assert Canonical(init);
        LeadingDigitPositive(init);
        TryNumericLossless(init);
        assert n / 10 == DigitsValue(init) && n % 10 == s[|s| - 1] as int - '0' as int;
        assert s == init + [s[|s| - 1]];
      }
    } else {
      DecimalIsCanonical(n);
    }
  }

  // ---------------------------------------------------------------------------
  // maybe_unwrap and people

  /** `maybe_unwrap`: the sole element of a one-element list, any other list unchanged. */
  function MaybeUnwrap(xs: seq<Value>): (r: Value)
    ensures |xs| == 1 ==> r == xs[0]
    ensures |xs| != 1 ==> r == Seq(xs)
  {
    if |xs| == 1 then xs[0] else Seq(xs)
  }

  /** How a reader of the output gets a list back: a sequence is the list, anything else a singleton. */
  function AsList(v: Value): seq<Value> {
    if v.Seq? then v.items else [v]
  }

  /** Unwrapping loses nothing when no element is itself a sequence. */
  lemma MaybeUnwrapRoundTrip(xs: seq<Value>)
    requires forall x | x in xs :: !x.Seq?
    ensures AsList(MaybeUnwrap(xs)) == xs
  {
  }

  /** `preprocess_person` as written, on the person as the store holds it: a combined name
      becomes its bare string; a person in fields is spread and loses only its `kind` marker,
      so the `combined_name` the toggle left behind comes first, then the five fields. */
  function RenderPersonAsWritten(p: Person): (r: Value)
    ensures p.Combined? ==> r == Str(p.combined_name)
    ensures p.Fields? ==> r == Map([Field("combined_name", Str(p.combined_name))] + RenderPerson(p).entries)
    ensures p.Fields? ==> r.Map? && Lookup(r.entries, "combined_name") == Some(Str(p.combined_name))
  {
    match p
    case Combined(s) => Str(s)
    case Fields(combined_name, name, given_name, prefix, suffix, alias) =>
      var es := [Field("combined_name", Str(combined_name)), Field("name", Str(name)), Field("given_name", Str(given_name)),
                 Field("prefix", Str(prefix)), Field("suffix", Str(suffix)), Field("alias", Str(alias))];
      assert es == [es[0]] + RenderPerson(p).entries;
      Map(es)
  }

  /** `preprocess_person` as intended: a combined name becomes its bare string, a person in
      fields becomes the mapping of its five fields and nothing else. */
  function RenderPerson(p: Person): (r: Value)
    ensures p.Combined? <==> r.Str?
    ensures p.Fields? ==> r.Map? && Lookup(r.entries, "combined_name") == None
  {
    match p
    case Combined(s) => Str(s)
    case Fields(_, name, given_name, prefix, suffix, alias) =>
      var es := [Field("name", Str(name)), Field("given_name", Str(given_name)), Field("prefix", Str(prefix)),
                 Field("suffix", Str(suffix)), Field("alias", Str(alias))];
      LeftoverKeyAbsent(es);
      Map(es)
  }

  /** None of the five field keys is `combined_name` (each has another length). */
  lemma LeftoverKeyAbsent(es: seq<Field>)
    requires |es| == 5 && es[0].key == "name" && es[1].key == "given_name" && es[2].key == "prefix"
             && es[3].key == "suffix" && es[4].key == "alias"
    ensures forall f | f in es :: f.key != "combined_name"
    ensures Lookup(es, "combined_name") == None
  {
    assert forall f | f in es :: |f.key| < |"combined_name"|;
    LookupFound(es, "combined_name");
  }

  /** Deleting a key no entry has changes nothing. */
  lemma {:induction false} DeleteAbsentKey(es: seq<Field>, k: string)
    requires forall f | f in es :: f.key != k
    ensures DeleteKey(es, k) == es
  {
    if es != [] {
      DeleteAbsentKey(es[1..], k);
      assert es == [es[0]] + es[1..];
    }
  }

  /** The intended rendering is the written one with the leftover key deleted. */
  lemma RenderPersonDropsLeftover(p: Person)
    requires p.Fields?
    ensures RenderPerson(p).entries == DeleteKey(RenderPersonAsWritten(p).entries, "combined_name")
  {
    var es := RenderPersonAsWritten(p).entries;
    LeftoverKeyAbsent(es[1..]);
    DeleteAbsentKey(es[1..], "combined_name");
  }

  /** A combined name toggled to fields keeps its old text: as written it is rendered under
      `combined_name` beside `name`, where the intended rendering has only `name`. */
  lemma ToggledPersonLeaks(s: string)
    ensures RenderPersonAsWritten(TogglePerson(Combined(s)))
         == Map([Field("combined_name", Str(s)), Field("name", Str(s)), Field("given_name", Str("")),
                 Field("prefix", Str("")), Field("suffix", Str("")), Field("alias", Str(""))])
    ensures RenderPerson(TogglePerson(Combined(s)))
         == Map([Field("name", Str(s)), Field("given_name", Str("")),
                 Field("prefix", Str("")), Field("suffix", Str("")), Field("alias", Str(""))])
    ensures RenderPersonAsWritten(TogglePerson(Combined(s))) != RenderPerson(TogglePerson(Combined(s)))
  {
  }

  /** Reads a rendered person back. */
  function ParsePerson(v: Value): Option<Person> {
    match v
    case Str(s) => Some(Combined(s))
    case Map(es) =>
      if |es| == 5 && es[0].key == "name" && es[1].key == "given_name" && es[2].key == "prefix"
         && es[3].key == "suffix" && es[4].key == "alias"
         && es[0].value.Str? && es[1].value.Str? && es[2].value.Str? && es[3].value.Str? && es[4].value.Str?
      then Some(Fields("", es[0].value.s, es[1].value.s, es[2].value.s, es[3].value.s, es[4].value.s))
      else None
    case _ => None
  }

  /** Rendering a person loses nothing but the toggle's leftover, which it ignores. */
  lemma RenderPersonRoundTrip(p: Person)
    ensures ParsePerson(RenderPerson(p)) == Some(WithoutLeftover(p))
    ensures RenderPerson(WithoutLeftover(p)) == RenderPerson(p)
  {
  }

  /** `persons.map(preprocess_person)`. */
  function RenderPeople(ps: seq<Person>): (r: seq<Value>)
    ensures |r| == |ps| && forall i | 0 <= i < |ps| :: r[i] == RenderPerson(ps[i])
  {
    seq(|ps|, i requires 0 <= i < |ps| => RenderPerson(ps[i]))
  }

  /** A list of people normalises to the one rendered person or to the list of them,
      and a reader gets the whole list back. */
  lemma {:induction false} PeopleRoundTrip(ps: seq<Person>)
    ensures |ps| == 1 ==> MaybeUnwrap(RenderPeople(ps)) == RenderPerson(ps[0])
    ensures |ps| != 1 ==> MaybeUnwrap(RenderPeople(ps)).Seq?
    ensures |AsList(MaybeUnwrap(RenderPeople(ps)))| == |ps|
    ensures forall i | 0 <= i < |ps| :: ParsePerson(AsList(MaybeUnwrap(RenderPeople(ps)))[i]) == Some(WithoutLeftover(ps[i]))
  {
    var rs := RenderPeople(ps);
    MaybeUnwrapRoundTrip(rs);
    forall i | 0 <= i < |ps| ensures ParsePerson(rs[i]) == Some(WithoutLeftover(ps[i])) {
      RenderPersonRoundTrip(ps[i]);
    }
  }

  function RoleValue(r: Option<Role>): Value {
    match r
    case None => Str("")
    case Some(role) => Str(RoleName(role))
  }

  /** One affiliated group: its role and its names, unwrapped when there is one. */
  function NormalizeGroup(g: PersonWithRole): (r: Value)
    ensures r.Map? && |r.entries| == 2
    ensures r.entries[0] == Field("role", RoleValue(g.role))
    ensures r.entries[1] == Field("names", MaybeUnwrap(RenderPeople(g.names)))
  {
    Map([Field("role", RoleValue(g.role)), Field("names", MaybeUnwrap(RenderPeople(g.names)))])
  }

  /** The group's names come back from the output, and its role is dropped by the
      replacer (an empty string) exactly when it has none. */
  lemma GroupRoundTrip(g: PersonWithRole)
    ensures NormalizeGroup(g).entries[0].value == Str("") <==> g.role.None?
    ensures |AsList(NormalizeGroup(g).entries[1].value)| == |g.names|
    ensures forall i | 0 <= i < |g.names| :: ParsePerson(AsList(NormalizeGroup(g).entries[1].value)[i]) == Some(WithoutLeftover(g.names[i]))
  {
    PeopleRoundTrip(g.names);
    if g.role.Some? {
      RoleNameNonEmpty(g.role.value);
    }
  }

  function NormalizeGroups(gs: seq<PersonWithRole>): (r: seq<Value>)
    ensures |r| == |gs| && forall i | 0 <= i < |gs| :: r[i] == NormalizeGroup(gs[i])
  {
    seq(|gs|, i requires 0 <= i < |gs| => NormalizeGroup(gs[i]))
  }

  // ---------------------------------------------------------------------------
  // publisher, url and serial number

  /** Publisher collapse: no name gives `""`, a name without location the bare name,
      otherwise the two-field mapping. */
  function NormalizePublisher(p: Publisher): (r: Value)
    ensures r == Str("") <==> p.name == ""
    ensures p.name != "" && p.location == "" ==> r == Str(p.name)
    ensures p.name != "" && p.location != "" ==> r == Map([Field("name", Str(p.name)), Field("location", Str(p.location))])
  {
    if p.name == "" then Str("")
    else if p.location == "" then Str(p.name)
    else Map([Field("name", Str(p.name)), Field("location", Str(p.location))])
  }

  function DecodePublisher(v: Value): Option<Publisher> {
    match v
    case Str(s) => Some(Publisher(s, ""))
    case Map(es) =>
      if |es| == 2 && es[0].key == "name" && es[1].key == "location" && es[0].value.Str? && es[1].value.Str?
      then Some(Publisher(es[0].value.s, es[1].value.s))
      else None
    case _ => None
  }

  /** The collapse loses nothing except a location left behind once the name was cleared
      (the form hides the location field while the name is empty). */
  lemma PublisherRoundTrip(p: Publisher)
    ensures p.name != "" || p.location == "" ==> DecodePublisher(NormalizePublisher(p)) == Some(p)
    ensures p.name == "" ==> NormalizePublisher(p) == NormalizePublisher(Publisher("", ""))
  {
  }

  /** Url collapse: the same rule keyed on `value` and `date`. */
  function NormalizeUrl(u: Url): (r: Value)
    ensures r == Str("") <==> u.value == ""
    ensures u.value != "" && u.date == "" ==> r == Str(u.value)
    ensures u.value != "" && u.date != "" ==> r == Map([Field("value", Str(u.value)), Field("date", Str(u.date))])
  {
    if u.value == "" then Str("")
    else if u.date == "" then Str(u.value)
    else Map([Field("value", Str(u.value)), Field("date", Str(u.date))])
  }

  function DecodeUrl(v: Value): Option<Url> {
    match v
    case Str(s) => Some(Url(s, ""))
    case Map(es) =>
      if |es| == 2 && es[0].key == "value" && es[1].key == "date" && es[0].value.Str? && es[1].value.Str?
      then Some(Url(es[0].value.s, es[1].value.s))
      else None
    case _ => None
  }

  lemma UrlRoundTrip(u: Url)
    ensures u.value != "" || u.date == "" ==> DecodeUrl(NormalizeUrl(u)) == Some(u)
    ensures u.value == "" ==> NormalizeUrl(u) == NormalizeUrl(Url("", ""))
  {
  }

  /** The position of a kind in `serial_kinds`. */
  function SerialIndex(k: SerialKind): (i: nat)
    ensures i < |SerialKinds| && SerialKinds[i] == k
  {
    match k
    case Doi => 0
    case Isbn => 1
    case Issn => 2
    case Pmid => 3
    case Pmcid => 4
    case Arxiv => 5
  }

  /** `serial_kinds.some((k) => data.serial_number[k] !== "")`. */
  predicate AnyIdentifier(sn: SerialNumber) {
    exists k | k in SerialKinds :: sn.Get(k) != ""
  }

  /** The serial number object as it stands: `serial`, then the kinds in their order. */
  function SerialMapping(sn: SerialNumber): seq<Field> {
    [ Field("serial", Str(sn.serial)),
      Field("doi", Str(sn.doi)),
      Field("isbn", Str(sn.isbn)),
      Field("issn", Str(sn.issn)),
      Field("pmid", Str(sn.pmid)),
      Field("pmcid", Str(sn.pmcid)),
      Field("arxiv", Str(sn.arxiv)) ]
  }

  /** Serial number collapse: the full mapping, `serial` included, exactly when some
      identifier kind is set; otherwise the bare `serial` string. */
  function NormalizeSerial(sn: SerialNumber): (r: Value)
    ensures r.Map? <==> AnyIdentifier(sn)
    ensures !AnyIdentifier(sn) ==> r == Str(sn.serial)
    ensures r.Map? ==> Lookup(r.entries, "serial") == Some(Str(sn.serial))
                       && forall k :: Lookup(r.entries, SerialKindName(k)) == Some(Str(sn.Get(k)))
  {
    if AnyIdentifier(sn) then
      var es := SerialMapping(sn);
      assert Lookup(es, "serial") == Some(Str(sn.serial));
      assert forall k :: Lookup(es, SerialKindName(k)) == Some(Str(sn.Get(k))) by {
        forall k ensures Lookup(es, SerialKindName(k)) == Some(Str(sn.Get(k))) {
          LookupFirst(es, SerialIndex(k) + 1, SerialKindName(k));
        }
      }
      Map(es)
    else
      Str(sn.serial)
  }

  function DecodeSerial(v: Value): Option<SerialNumber> {
    match v
    case Str(s) => Some(SerialNumber(s, "", "", "", "", "", ""))
    case Map(es) =>
      if |es| == 7 && es[0].key == "serial" && es[1].key == "doi" && es[2].key == "isbn" && es[3].key == "issn"
         && es[4].key == "pmid" && es[5].key == "pmcid" && es[6].key == "arxiv"
         && forall i | 0 <= i < 7 :: es[i].value.Str?
      then Some(SerialNumber(es[0].value.s, es[1].value.s, es[2].value.s, es[3].value.s,
                             es[4].value.s, es[5].value.s, es[6].value.s))
      else None
    case _ => None
  }

  /** The serial number collapse loses nothing, whichever slots are set. */
  lemma SerialRoundTrip(sn: SerialNumber)
    ensures DecodeSerial(NormalizeSerial(sn)) == Some(sn)
  {
    if !AnyIdentifier(sn) {
      forall k ensures sn.Get(k) == "" {
        assert SerialKinds[SerialIndex(k)] == k;
      }
      assert sn.Get(Doi) == sn.Get(Isbn) == sn.Get(Issn) == sn.Get(Pmid) == sn.Get(Pmcid) == sn.Get(Arxiv) == "";
    }
  }

  // ---------------------------------------------------------------------------
  // preprocess

  /** The keys of a normalised entry, in the order of `default_entry_data`. */
  const EntryKeys: seq<string> := [
    "type", "title", "author", "date", "parent", "abstract", "genre", "editor", "affiliated",
    "call_number", "publisher", "location", "organization", "issue", "volume", "volume_total",
    "edition", "page_range", "page_total", "time_range", "runtime", "url", "serial_number",
    "language", "archive", "archive_location", "note"]

  /** The value `preprocess` gives key `k` of `{ ...data, parent: …, author: …, … }`:
      the rewritten value for the keys it overrides, the entry's own field for the rest. */
  function FieldValue(e: EntryData, k: string): Value
    decreases e, 0
  {
    match k
    case "type" => Str(TypeName(e.type_))
    case "title" => Str(e.title)
    case "author" => MaybeUnwrap(RenderPeople(e.author))
    case "date" => Str(e.date)
    case "parent" => if e.parent.Some? then Normalize(e.parent.value) else Null
    case "abstract" => Str(e.abstract_)
    case "genre" => Str(e.genre)
    case "editor" => MaybeUnwrap(RenderPeople(e.editor))
    case "affiliated" => Seq(NormalizeGroups(e.affiliated))
    case "call_number" => Str(e.call_number)
    case "publisher" => NormalizePublisher(e.publisher)
    case "location" => Str(e.location)
    case "organization" => Str(e.organization)
    case "issue" => TryNumeric(e.issue)
    case "volume" => TryNumeric(e.volume)
    case "volume_total" => TryNumeric(e.volume_total)
    case "edition" => TryNumeric(e.edition)
    case "page_range" => TryNumeric(e.page_range)
    case "page_total" => TryNumeric(e.page_total)
    case "time_range" => Str(e.time_range)
    case "runtime" => Str(e.runtime)
    case "url" => NormalizeUrl(e.url)
    case "serial_number" => NormalizeSerial(e.serial_number)
    case "language" => Str(e.language)
    case "archive" => Str(e.archive)
    case "archive_location" => Str(e.archive_location)
    case "note" => Str(e.note)
    case _ => Null  // not a field of an entry
  }

  /** The spread record before the archive gate: every key of the entry, in order, with its value. */
  function EntryFields(e: EntryData): (r: seq<Field>)
    ensures |r| == |EntryKeys| && forall i | 0 <= i < |r| :: r[i] == Field(EntryKeys[i], FieldValue(e, EntryKeys[i]))
    decreases e, 1
  {
    seq(|EntryKeys|, i requires 0 <= i < |EntryKeys| => Field(EntryKeys[i], FieldValue(e, EntryKeys[i])))
  }

  /** `preprocess`: the entry as a mapping; without an archive, `archive_location`
      and `call_number` are deleted whatever they hold. */
  function Normalize(e: EntryData): (r: Value)
    ensures r.Map?
    decreases e, 2
  {
    var all := EntryFields(e);
    if e.archive == "" then Map(DeleteKey(DeleteKey(all, "archive_location"), "call_number"))
    else Map(all)
  }

  /** The keys of an entry, as a test on a key. */
  predicate IsEntryKey(k: string) {
    match k
    case "type" | "title" | "author" | "date" | "parent" | "abstract" | "genre" | "editor"
       | "affiliated" | "call_number" | "publisher" | "location" | "organization" | "issue"
       | "volume" | "volume_total" | "edition" | "page_range" | "page_total" | "time_range"
       | "runtime" | "url" | "serial_number" | "language" | "archive" | "archive_location"
       | "note" => true
    case _ => false
  }

  lemma IsEntryKeyIn(k: string)
    ensures IsEntryKey(k) <==> k in EntryKeys
  {
  }

  lemma EntryKeysDistinct()
    ensures forall i, j | 0 <= i < j < |EntryKeys| :: EntryKeys[i] != EntryKeys[j]
  {
  }

  lemma {:induction false} LookupEntryFields(e: EntryData, k: string)
    ensures Lookup(EntryFields(e), k) == if k in EntryKeys then Some(FieldValue(e, k)) else None
  {
    if k in EntryKeys {
      var i :| 0 <= i < |EntryKeys| && EntryKeys[i] == k;
      EntryKeysDistinct();
      LookupFirst(EntryFields(e), i, k);
    } else {
      LookupFound(EntryFields(e), k);
    }
  }

  /** The normalised entry holds exactly the entry's keys, each with its rewritten value,
      except that without an archive it holds neither `archive_location` nor `call_number`. */
  lemma NormalizeLookup(e: EntryData, k: string)
    ensures Lookup(Normalize(e).entries, k)
         == if IsEntryKey(k) && (e.archive != "" || (k != "archive_location" && k != "call_number"))
            then Some(FieldValue(e, k)) else None
  {
    LookupEntryFields(e, k);
    IsEntryKeyIn(k);
    var all := EntryFields(e);
    DeleteKeyLookup(all, "archive_location", k);
    DeleteKeyLookup(DeleteKey(all, "archive_location"), "call_number", k);
  }

  /** The entries of a normalised entry, as a set: each key of the entry with its rewritten
      value, except the two archive keys when there is no archive. */
  lemma NormalizeMembers(e: EntryData, f: Field)
    ensures f in Normalize(e).entries
        <==> f.key in EntryKeys && f.value == FieldValue(e, f.key)
             && (e.archive != "" || (f.key != "archive_location" && f.key != "call_number"))
  {
    var all := EntryFields(e);
    if f.key in EntryKeys && f.value == FieldValue(e, f.key) {
      var i :| 0 <= i < |EntryKeys| && EntryKeys[i] == f.key;
      assert all[i] == f;
    }
  }

  /** Archive gating: `archive_location` and `call_number` are present exactly when `archive`
      is set, whatever they hold. */
  lemma NormalizeArchiveGate(e: EntryData)
    ensures Lookup(Normalize(e).entries, "archive_location")
         == if e.archive == "" then None else Some(Str(e.archive_location))
    ensures Lookup(Normalize(e).entries, "call_number")
         == if e.archive == "" then None else Some(Str(e.call_number))
    ensures Lookup(Normalize(e).entries, "archive") == Some(Str(e.archive))
  {
    assert Lookup(Normalize(e).entries, "archive_location")
        == if e.archive == "" then None else Some(Str(e.archive_location)) by {
      NormalizeLookup(e, "archive_location");
    }
    assert Lookup(Normalize(e).entries, "call_number")
        == if e.archive == "" then None else Some(Str(e.call_number)) by {
      NormalizeLookup(e, "call_number");
    }
    assert Lookup(Normalize(e).entries, "archive") == Some(Str(e.archive)) by {
      NormalizeLookup(e, "archive");
    }
  }

  /** Numeric coercion is applied to exactly these six fields. */
  lemma NormalizeNumeric(e: EntryData)
    ensures Lookup(Normalize(e).entries, "issue") == Some(TryNumeric(e.issue))
    ensures Lookup(Normalize(e).entries, "volume") == Some(TryNumeric(e.volume))
    ensures Lookup(Normalize(e).entries, "volume_total") == Some(TryNumeric(e.volume_total))
    ensures Lookup(Normalize(e).entries, "edition") == Some(TryNumeric(e.edition))
    ensures Lookup(Normalize(e).entries, "page_range") == Some(TryNumeric(e.page_range))
    ensures Lookup(Normalize(e).entries, "page_total") == Some(TryNumeric(e.page_total))
  {
    NormalizeLookup(e, "issue");
    NormalizeLookup(e, "volume");
    NormalizeLookup(e, "volume_total");
    NormalizeLookup(e, "edition");
    NormalizeLookup(e, "page_range");
    NormalizeLookup(e, "page_total");
  }

  /** Author, editor and each affiliated group's names are rendered and unwrapped. */
  lemma NormalizeContributors(e: EntryData)
    ensures Lookup(Normalize(e).entries, "author") == Some(MaybeUnwrap(RenderPeople(e.author)))
    ensures Lookup(Normalize(e).entries, "editor") == Some(MaybeUnwrap(RenderPeople(e.editor)))
    ensures Lookup(Normalize(e).entries, "affiliated") == Some(Seq(NormalizeGroups(e.affiliated)))
  {
    NormalizeLookup(e, "author");
    NormalizeLookup(e, "editor");
    NormalizeLookup(e, "affiliated");
  }

  /** Publisher, url and serial number are collapsed. */
  lemma NormalizeCollapsed(e: EntryData)
    ensures Lookup(Normalize(e).entries, "publisher") == Some(NormalizePublisher(e.publisher))
    ensures Lookup(Normalize(e).entries, "url") == Some(NormalizeUrl(e.url))
    ensures Lookup(Normalize(e).entries, "serial_number") == Some(NormalizeSerial(e.serial_number))
  {
    NormalizeLookup(e, "publisher");
    NormalizeLookup(e, "url");
    NormalizeLookup(e, "serial_number");
  }

  /** The descriptive text fields pass through unchanged. */
  lemma NormalizePassThrough(e: EntryData)
    ensures Lookup(Normalize(e).entries, "type") == Some(Str(TypeName(e.type_)))
    ensures Lookup(Normalize(e).entries, "title") == Some(Str(e.title))
    ensures Lookup(Normalize(e).entries, "date") == Some(Str(e.date))
    ensures Lookup(Normalize(e).entries, "abstract") == Some(Str(e.abstract_))
    ensures Lookup(Normalize(e).entries, "genre") == Some(Str(e.genre))
    ensures Lookup(Normalize(e).entries, "note") == Some(Str(e.note))
  {
    NormalizeLookup(e, "type");
    NormalizeLookup(e, "title");
    NormalizeLookup(e, "date");
    NormalizeLookup(e, "abstract");
    NormalizeLookup(e, "genre");
    NormalizeLookup(e, "note");
  }

  /** The place, time and language fields pass through unchanged. */
  lemma NormalizePassThroughContext(e: EntryData)
    ensures Lookup(Normalize(e).entries, "location") == Some(Str(e.location))
    ensures Lookup(Normalize(e).entries, "organization") == Some(Str(e.organization))
    ensures Lookup(Normalize(e).entries, "time_range") == Some(Str(e.time_range))
    ensures Lookup(Normalize(e).entries, "runtime") == Some(Str(e.runtime))
    ensures Lookup(Normalize(e).entries, "language") == Some(Str(e.language))
  {
    NormalizeLookup(e, "location");
    NormalizeLookup(e, "organization");
    NormalizeLookup(e, "time_range");
    NormalizeLookup(e, "runtime");
    NormalizeLookup(e, "language");
  }

  /** The parent is normalised by the same rules, or is `null` when there is none. */
  lemma NormalizeParent(e: EntryData)
    ensures Lookup(Normalize(e).entries, "parent")
         == Some(if e.parent.Some? then Normalize(e.parent.value) else Null)
  {
    NormalizeLookup(e, "parent");
  }

  /** The value reached from `v` by following the `parent` key `d` times. */
  function FollowParent(v: Value, d: nat): Option<Value>
    decreases d
  {
    if d == 0 then Some(v)
    else if !v.Map? then None
    else match Lookup(v.entries, "parent")
      case None => None
      case Some(p) => FollowParent(p, d - 1)
  }

  /** Every entry of the parent chain is normalised by the same rules at its depth,
      and the chain ends in `null` exactly one step above its last entry. */
  lemma {:induction false} NormalizeChain(e: EntryData, d: nat)
    requires d <= ChainLength(e)
    ensures d < ChainLength(e) ==> FollowParent(Normalize(e), d) == Some(Normalize(At(e, d)))
    ensures d == ChainLength(e) ==> FollowParent(Normalize(e), d) == Some(Null)
    decreases d
  {
    NormalizeParent(e);
    if d > 0 {
      if e.parent.Some? {
        NormalizeChain(e.parent.value, d - 1);
      }
    }
  }
}
