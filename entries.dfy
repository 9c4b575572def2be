/**
 * The bibliographic entry record of src/App.tsx (`EntryData` and the types it
 * is built from), its defaults, and the chain of parents an entry owns.
 */
module Entries {
  import opened Wrappers
  import opened People

  /** The thirty entry kinds of the `types` table. */
  datatype EntryType =
    | Anthology | Anthos | Article | Artwork | Audio | Blog | Book | Case | Chapter
    | Conference | Entry | Exhibition | Legislation | Manuscript | Misc | Newspaper
    | Original | Patent | Performance | Periodical | Post | Proceedings | Reference
    | Report | Repository | Scene | Thesis | Thread | Video | Web

  /** The string each entry kind is written as. */
  function TypeName(t: EntryType): string {
    match t
    case Anthology => "anthology"
    case Anthos => "anthos"
    case Article => "article"
    case Artwork => "artwork"
    case Audio => "audio"
    case Blog => "blog"
    case Book => "book"
    case Case => "case"
    case Chapter => "chapter"
    case Conference => "conference"
    case Entry => "entry"
    case Exhibition => "exhibition"
    case Legislation => "legislation"
    case Manuscript => "manuscript"
    case Misc => "misc"
    case Newspaper => "newspaper"
    case Original => "original"
    case Patent => "patent"
    case Performance => "performance"
    case Periodical => "periodical"
    case Post => "post"
    case Proceedings => "proceedings"
    case Reference => "reference"
    case Report => "report"
    case Repository => "repository"
    case Scene => "scene"
    case Thesis => "thesis"
    case Thread => "thread"
    case Video => "video"
    case Web => "web"
  }

  /** Every kind has a name, so the replacer never drops `type`. */
  lemma TypeNameNonEmpty(t: EntryType)
    ensures TypeName(t) != ""
  {
  }

  /** The `default_parents` table: the kind a new parent gets, for the eleven kinds listed. */
  function DefaultParents(t: EntryType): Option<EntryType> {
    match t
    case Article => Some(Periodical)
    case Chapter => Some(Book)
    case Entry => Some(Reference)
    case Anthos => Some(Anthology)
    case Web => Some(Web)
    case Scene => Some(Video)
    case Artwork => Some(Exhibition)
    case Legislation => Some(Anthology)
    case Post => Some(Post)
    case Video => Some(Video)
    case Audio => Some(Audio)
    case _ => None
  }

  /** The kind given to a parent added below an entry of kind `t`
      (`default_parents.get(t) ?? "misc"`). */
  function ParentType(t: EntryType): (r: EntryType)
    ensures DefaultParents(t).Some? ==> r == DefaultParents(t).value
    ensures DefaultParents(t).None? ==> r == Misc
  {
    DefaultParents(t).GetOr(Misc)
  }

  /** The twenty contributor roles of the `roles` table. */
  datatype Role =
    | Afterword | Annotator | CastMember | Cinematography | Collaborator | Commentator
    | Compiler | Composer | Director | ExecutiveProducer | Foreword | Founder | Holder
    | Illustrator | Introduction | Narrator | Organizer | Producer | Translator | Writer

  function RoleName(r: Role): string {
    match r
    case Afterword => "afterword"
    case Annotator => "annotator"
    case CastMember => "cast-member"
    case Cinematography => "cinematography"
    case Collaborator => "collaborator"
    case Commentator => "commentator"
    case Compiler => "compiler"
    case Composer => "composer"
    case Director => "director"
    case ExecutiveProducer => "executive-producer"
    case Foreword => "foreword"
    case Founder => "founder"
    case Holder => "holder"
    case Illustrator => "illustrator"
    case Introduction => "introduction"
    case Narrator => "narrator"
    case Organizer => "organizer"
    case Producer => "producer"
    case Translator => "translator"
    case Writer => "writer"
  }

  /** Every role has a name, so only the empty role is dropped by the replacer. */
  lemma RoleNameNonEmpty(r: Role)
    ensures RoleName(r) != ""
  {
  }

  /** A group of contributors sharing one role; `None` is the source's empty role `""`. */
  datatype PersonWithRole = PersonWithRole(role: Option<Role>, names: seq<Person>)

  datatype Publisher = Publisher(name: string, location: string)

  datatype Url = Url(value: string, date: string)

  /** The six identifier kinds of `serial_kinds`, in their order. */
  datatype SerialKind = Doi | Isbn | Issn | Pmid | Pmcid | Arxiv

  const SerialKinds: seq<SerialKind> := [Doi, Isbn, Issn, Pmid, Pmcid, Arxiv]

  function SerialKindName(k: SerialKind): string {
    match k
    case Doi => "doi"
    case Isbn => "isbn"
    case Issn => "issn"
    case Pmid => "pmid"
    case Pmcid => "pmcid"
    case Arxiv => "arxiv"
  }

  /** A generic `serial` slot and one slot per identifier kind; any of them may be set. */
  datatype SerialNumber = SerialNumber(
    serial: string, doi: string, isbn: string, issn: string, pmid: string, pmcid: string, arxiv: string)
  {
    function Get(k: SerialKind): string {
      match k
      case Doi => doi
      case Isbn => isbn
      case Issn => issn
      case Pmid => pmid
      case Pmcid => pmcid
      case Arxiv => arxiv
    }

    /** The serial number with the slot of kind `k` set to `v`. */
    function With(k: SerialKind, v: string): (r: SerialNumber)
      ensures r.Get(k) == v && r.serial == serial
      ensures forall k' :: k' != k ==> r.Get(k') == Get(k')
    {
      match k
      case Doi => this.(doi := v)
      case Isbn => this.(isbn := v)
      case Issn => this.(issn := v)
      case Pmid => this.(pmid := v)
      case Pmcid => this.(pmcid := v)
      case Arxiv => this.(arxiv := v)
    }
  }

  /** A slot set twice keeps the second value; a slot set to what it holds is unchanged. */
  lemma WithTwice(sn: SerialNumber, k: SerialKind, a: string, b: string)
    ensures sn.With(k, a).With(k, b) == sn.With(k, b)
    ensures sn.With(k, sn.Get(k)) == sn
  {
  }

  /** One bibliographic entry, owning at most one parent entry. */
  datatype EntryData = EntryData(
    type_: EntryType,
    title: string,
    author: seq<Person>,
    date: string,
    parent: Option<EntryData>,
    abstract_: string,
    genre: string,
    editor: seq<Person>,
    affiliated: seq<PersonWithRole>,
    call_number: string,
    publisher: Publisher,
    location: string,
    organization: string,
    issue: string,
    volume: string,
    volume_total: string,
    edition: string,
    page_range: string,
    page_total: string,
    time_range: string,
    runtime: string,
    url: Url,
    serial_number: SerialNumber,
    language: string,
    archive: string,
    archive_location: string,
    note: string)

  /** `default_entry_data()`: a `misc` entry with one empty combined author and
      editor, no affiliated groups, no parent, and every other field empty. */
  function DefaultEntryData(): (e: EntryData)
    ensures e.type_ == Misc && e.parent == None
    ensures e.author == [DefaultPerson()] && e.editor == [DefaultPerson()] && e.affiliated == []
    ensures e.publisher == Publisher("", "") && e.url == Url("", "")
    ensures e.serial_number.serial == "" && forall k :: e.serial_number.Get(k) == ""
    ensures e.title == e.date == e.abstract_ == e.genre == e.call_number == e.location == ""
    ensures e.organization == e.issue == e.volume == e.volume_total == e.edition == ""
    ensures e.page_range == e.page_total == e.time_range == e.runtime == e.language == ""
    ensures e.archive == e.archive_location == e.note == ""
  {
    EntryData(
      type_ := Misc,
      title := "",
      author := [DefaultPerson()],
      date := "",
      parent := None,
      abstract_ := "",
      genre := "",
      editor := [DefaultPerson()],
      affiliated := [],
      call_number := "",
      publisher := Publisher("", ""),
      location := "",
      organization := "",
      issue := "",
      volume := "",
      volume_total := "",
      edition := "",
      page_range := "",
      page_total := "",
      time_range := "",
      runtime := "",
      url := Url("", ""),
      serial_number := SerialNumber("", "", "", "", "", "", ""),
      language := "",
      archive := "",
      archive_location := "",
      note := "")
  }

  /** The entry created by "Add parent" below an entry of kind `t`. */
  function NewParent(t: EntryType): (p: EntryData)
    ensures p == DefaultEntryData().(type_ := ParentType(t))
    ensures p.parent == None && p.author == [DefaultPerson()] && p.editor == [DefaultPerson()]
  {
    DefaultEntryData().(type_ := ParentType(t))
  }

  /** The number of entries in the chain starting at `e` (the entry itself and its ancestors). */
  function ChainLength(e: EntryData): (n: nat)
    ensures n >= 1
    ensures e.parent.None? <==> n == 1
  {
    match e.parent
    case None => 1
    case Some(p) => 1 + ChainLength(p)
  }

  /** The entry `depth` steps up the parent chain. */
  function At(e: EntryData, depth: nat): (a: EntryData)
    requires depth < ChainLength(e)
    ensures ChainLength(a) == ChainLength(e) - depth
    decreases depth
  {
    if depth == 0 then e else At(e.parent.value, depth - 1)
  }

  /** `e` with the entry `depth` steps up its chain replaced by `sub` (and everything above it
      replaced by what `sub` owns): a store setter reached through `depth` nested
      `child_setter(props.set, "parent")` calls. */
  function ReplaceAt(e: EntryData, depth: nat, sub: EntryData): (r: EntryData)
    requires depth < ChainLength(e)
    ensures ChainLength(r) == depth + ChainLength(sub)
    ensures At(r, depth) == sub
    decreases depth
  {
    if depth == 0 then sub else e.(parent := Some(ReplaceAt(e.parent.value, depth - 1, sub)))
  }

  /** An entry without its parent link: what an edit lower in the chain leaves unchanged. */
  function Own(e: EntryData): EntryData {
    e.(parent := None)
  }

  /** Replacing the entry at `depth` leaves every entry below it unchanged except for its parent link. */
  lemma {:induction false} ReplaceAtKeepsBelow(e: EntryData, depth: nat, sub: EntryData, k: nat)
    requires depth < ChainLength(e) && k < depth
    ensures k < ChainLength(ReplaceAt(e, depth, sub))
    ensures Own(At(ReplaceAt(e, depth, sub), k)) == Own(At(e, k))
    decreases depth
  {
    if k > 0 {
      ReplaceAtKeepsBelow(e.parent.value, depth - 1, sub, k - 1);
    }
  }

  /** Replacing the same entry twice keeps only the second replacement. */
  lemma {:induction false} ReplaceAtTwice(e: EntryData, depth: nat, s1: EntryData, s2: EntryData)
    requires depth < ChainLength(e)
    ensures depth < ChainLength(ReplaceAt(e, depth, s1))
    ensures ReplaceAt(ReplaceAt(e, depth, s1), depth, s2) == ReplaceAt(e, depth, s2)
    decreases depth
  {
    if depth > 0 {
      ReplaceAtTwice(e.parent.value, depth - 1, s1, s2);
    }
  }

  /** Putting back the entry that is already there changes nothing. */
  lemma {:induction false} ReplaceAtSame(e: EntryData, depth: nat)
    requires depth < ChainLength(e)
    ensures ReplaceAt(e, depth, At(e, depth)) == e
    decreases depth
  {
    if depth > 0 {
      ReplaceAtSame(e.parent.value, depth - 1);
    }
  }
}
