# hayagen core in Dafny

hayagen is a one-page form that builds a bibliography entry for Hayagriva, the
YAML bibliography format of the Typst typesetter. The page holds a label and one
entry. An entry has a type, contributors, dates, a publisher, identifiers, an
archive and an optional parent entry. The parent is itself an entry, so a chapter
can sit in a book and an article in a periodical. From this the page produces a
YAML document. This project models the core of `src/App.tsx`.

- **People** (`people.dfy`): a contributor held as one combined name or as name
  parts, the default person, and `toggle_person`.
- **Entries** (`entries.dfy`): the entry record, its types and roles, its
  publisher, url and serial number, `default_entry_data`, and the
  `default_parents` table. Also the parent chain, addressed by depth.
- **Normalizer** (`normalize.dfy`): the helpers nested in
  `make_yaml`: `try_numeric`, `maybe_unwrap`, `preprocess_person` and
  `preprocess`. Together they turn an entry into the generic tree (strings,
  numbers, `null`, arrays, ordered objects) that is handed to the YAML library.
- **Emitter** (`emit.dfy`): the replacer given to `YAML.stringify` and the
  `{ [label]: … }` wrapper with its `"label"` default. This yields the value tree
  that the YAML printer writes out.
- **Lists** (`lists.dfy`): the `ListInput` component's edits of a list in the
  store, and which of its buttons are offered.
- **Store** (`store.dfy`): the page state (label signal and entry store). It
  covers "Clear fields", adding and deleting a parent at any depth of the chain,
  and the serial-number prefix stripping.

Store writes that reach down the parent chain go through nested
`child_setter(props.set, "parent")` calls. Here they are `Entries.ReplaceAt` at a
depth.

The code runs the replacer on array elements too: the YAML library turns an
element that the replacer drops into `null` (`Emitter.EmitItems`).

A person in fields is modelled as the store holds it. The store setter merges
the object the toggle writes into the stored combined person, so the old
`combined_name` key stays on it (`People.Person` carries it on both variants).

## Model

| member | source | states |
|---|---|---|
| People.DefaultPerson | src/App.tsx:213-218 | a new person slot is an empty combined name |
| People.JoinedName | src/App.tsx:224 | the combined form starts with `prefix + " "` when there is a prefix, holds the name next, then `", " + given_name` when there is a given name, ends with `", " + suffix` when there is a suffix, is exactly the name when no other part is set, and its length is the sum of the parts shown |
| People.TogglePerson | src/App.tsx:220-236 | the toggle button (src/App.tsx:766) always switches the representation; combined → fields puts the whole string in `name`, leaves the other parts empty and, through the store's merge, keeps the old `combined_name`; fields → combined is the joined name |
| People.ToggleCombinedRoundTrip | src/App.tsx:220-236 | combined, then fields, then combined gives the original person |
| People.ToggleNameOnly | src/App.tsx:220-236 | with only a name (and maybe an alias) set, the combined form is the bare name, and two toggles give the name back without the alias, with the leftover `combined_name` equal to the name |
| People.ToggleForgetsAlias | src/App.tsx:224 | neither the alias nor the leftover `combined_name` reaches the combined form |
| People.ToggleTwiceStable | src/App.tsx:220-236 | after one round trip a person is a fixed point of toggling twice |
| Entries.ParentType | src/App.tsx:121-133 | the kind of a new parent is the `default_parents` entry for the type, or `misc` when it has none |
| Entries.DefaultParents | src/App.tsx:121-133 | the `default_parents` table of eleven kinds; `Entries.ParentType` states the fallback to `misc` |
| Entries.RoleNameNonEmpty | src/App.tsx:243-264 | every role has a non-empty name, so only "no role" is dropped on output |
| Entries.RoleName | src/App.tsx:243-264 | the name of each of the twenty roles; `Entries.RoleNameNonEmpty` and `Normalizer.GroupRoundTrip` state that only a missing role is written empty |
| Entries.TypeNameNonEmpty | src/App.tsx:86-117 | every type has a non-empty name, so the type is always written |
| Entries.TypeName | src/App.tsx:86-117 | the name of each of the thirty types; `Entries.TypeNameNonEmpty` and `Emitter.EmittedType` state that it is never empty and is always written |
| Entries.SerialNumber.With | src/App.tsx:278-282 | setting one identifier slot changes that slot only; `serial` and the other kinds keep their values |
| Entries.SerialKindName | src/App.tsx:278 | the key of each identifier kind of `serial_kinds`; `Normalizer.NormalizeSerial` states that every kind reads back under it |
| Entries.SerialKinds | src/App.tsx:278 | the identifier kinds in their order; `Normalizer.NormalizeSerial` and `Normalizer.SerialRoundTrip` use it for the gate and the decoding |
| Entries.WithTwice | src/App.tsx:278-282 | a slot set twice keeps the second value; setting a slot to its own value changes nothing |
| Entries.DefaultEntryData | src/App.tsx:165-198 | a fresh entry is a `misc` with one empty combined author, one empty combined editor, no affiliated groups, no parent and every text field empty |
| Entries.NewParent | src/App.tsx:609-611 | a new parent is a default entry whose type is the parent kind of the child's type, and it has no parent of its own |
| Entries.ChainLength | src/App.tsx:140 | a chain counts at least one entry, and exactly one when there is no parent |
| Entries.At | src/App.tsx:140 | the entry `depth` steps up heads a chain shorter by `depth` |
| Entries.ReplaceAt | src/App.tsx:1054-1060 | a write at `depth` puts the new entry at `depth`, and the chain becomes `depth` plus the new entry's chain long |
| Entries.ReplaceAtKeepsBelow | src/App.tsx:1054-1060 | a write at `depth` leaves the own fields of every entry below `depth` unchanged |
| Entries.ReplaceAtTwice | src/App.tsx:1054-1060 | two writes at the same depth keep only the second |
| Entries.ReplaceAtSame | src/App.tsx:1054-1060 | writing back the entry already at `depth` changes nothing |
| Normalizer.DeleteKey | src/App.tsx:333-336 | `delete o[k]` keeps exactly the entries whose key is not `k` |
| Normalizer.DeleteKeyLookup | src/App.tsx:333-336 | after `delete o[k]` the key `k` reads as absent and every other key reads as before |
| Normalizer.TryNumeric | src/App.tsx:285-291 | the result is a number exactly when the string is one or more decimal digits, and then it is the number they denote; otherwise it is the string unchanged, the empty string included |
| Normalizer.IsNumeral | src/App.tsx:286 | the test `/^[0-9]+$/`; `Normalizer.TryNumeric` uses it in both directions and `Normalizer.DecimalIsCanonical` shows every rendered number passes it |
| Normalizer.DigitsValue | src/App.tsx:287 | `parseInt` on a digit string; `Normalizer.DigitsValueOfDecimal` and `Normalizer.TryNumericOfDecimal` show it reads every decimal rendering back |
| Normalizer.TryNumericOfDecimal | src/App.tsx:285-291 | the written-out form of any number is turned back into that number |
| Normalizer.TryNumericLossless | src/App.tsx:285-291 | writing the number back gives the original text exactly when the numeral has no leading zeros (so `007` comes back as `7`) |
| Normalizer.MaybeUnwrap | src/App.tsx:293-299 | a one-element list becomes its element; any other list, the empty one included, stays a list |
| Normalizer.MaybeUnwrapRoundTrip | src/App.tsx:293-299 | reading a non-list as a singleton gives back the list, when no element is itself a list |
| Normalizer.RenderPersonAsWritten | src/App.tsx:339-347 | as written, a combined name becomes its `combined_name` string and a person in fields becomes the mapping of its leftover `combined_name` first, then the five fields of the intended rendering |
| Normalizer.RenderPerson | src/App.tsx:339-347 | as intended, a combined name becomes a string and a person in fields becomes a mapping without `combined_name` |
| Normalizer.RenderPersonDropsLeftover | src/App.tsx:343-345 | the intended rendering is the written one with the `combined_name` key deleted |
| Normalizer.ToggledPersonLeaks | src/App.tsx:339-347 | a combined name toggled to fields is rendered as written with `combined_name` and `name` both holding the old text, while the intended rendering has only `name` |
| Normalizer.RenderPersonRoundTrip | src/App.tsx:339-347 | the rendering loses nothing but the leftover: reading it back gives the person without it, and the leftover does not change the rendering |
| Normalizer.RenderPeople | src/App.tsx:305-306 | each person of a list is rendered in place |
| Normalizer.PeopleRoundTrip | src/App.tsx:305-306 | one author is written bare and several as a list, and the whole list of people can be read back, each without its leftover `combined_name` |
| Normalizer.NormalizeGroup | src/App.tsx:307-310 | an affiliated group becomes `role` then `names`, with the names rendered and unwrapped |
| Normalizer.RoleValue | src/App.tsx:308 | a group's `role`, the empty string when it has none; `Normalizer.GroupRoundTrip` states it is empty exactly then |
| Normalizer.GroupRoundTrip | src/App.tsx:307-310 | a group's names can be read back (without the leftover `combined_name`), and its role is the empty string (dropped on output) exactly when it has none |
| Normalizer.NormalizeGroups | src/App.tsx:307 | every affiliated group is normalised in place |
| Normalizer.NormalizePublisher | src/App.tsx:320-325 | a publisher without a name becomes `""`, one with a name but no location becomes the bare name, otherwise it becomes the name/location mapping |
| Normalizer.PublisherRoundTrip | src/App.tsx:320-325 | the collapse loses nothing except a location left behind after the name was cleared |
| Normalizer.NormalizeUrl | src/App.tsx:326-331 | the same collapse for a url, keyed on `value` and `date` |
| Normalizer.UrlRoundTrip | src/App.tsx:326-331 | the url collapse loses nothing except a date left behind after the value was cleared |
| Normalizer.NormalizeSerial | src/App.tsx:317-319 | the serial number becomes the full mapping, `serial` included and every slot readable, exactly when some identifier kind is set; otherwise it becomes the bare `serial` string |
| Normalizer.AnyIdentifier | src/App.tsx:317 | `serial_kinds.some(k => slot !== "")`; `Normalizer.NormalizeSerial` states that it chooses between the full mapping and the bare `serial` |
| Normalizer.SerialMapping | src/App.tsx:189-192 | the serial-number object, `serial` then the kinds in order; `Normalizer.NormalizeSerial` states every slot reads back from it |
| Normalizer.SerialRoundTrip | src/App.tsx:317-319 | the serial-number collapse loses nothing |
| Normalizer.EntryFields | src/App.tsx:302-332 | the spread record has every key of the entry, in declaration order, each with its rewritten value |
| Normalizer.EntryKeys | src/App.tsx:165-198 | the 27 keys of an entry in declaration order; `Normalizer.EntryFields` states the spread record has exactly them and `Emitter.EntryKeysHaveNoHyphen` that none holds `-` |
| Normalizer.FieldValue | src/App.tsx:302-332 | the value the spread record gives each key: the rewritten value for the overridden keys, the entry's own field for the rest; `Normalizer.LookupEntryFields` and `Normalizer.NormalizeLookup` state it key by key |
| Normalizer.Normalize | src/App.tsx:301-338 | `preprocess` yields a mapping (persons rendered by the corrected rule, see Findings); `Normalizer.NormalizeLookup` and `Normalizer.NormalizeMembers` give its contents |
| Normalizer.NormalizeLookup | src/App.tsx:301-338 | the normalised entry holds exactly the entry's keys with their rewritten values, except that without an archive it holds neither `archive_location` nor `call_number` |
| Normalizer.NormalizeMembers | src/App.tsx:301-338 | the same rule, stated as membership of key/value pairs |
| Normalizer.NormalizeArchiveGate | src/App.tsx:333-336 | `archive_location` and `call_number` are present exactly when `archive` is set, whatever they hold |
| Normalizer.NormalizeNumeric | src/App.tsx:311-316 | issue, volume, volume_total, edition, page_range and page_total go through `try_numeric` |
| Normalizer.NormalizeContributors | src/App.tsx:305-310 | author and editor are rendered and unwrapped, and affiliated groups are normalised (persons rendered by the corrected rule, see Findings) |
| Normalizer.NormalizeCollapsed | src/App.tsx:317-331 | publisher, url and serial number are collapsed |
| Normalizer.NormalizePassThrough | src/App.tsx:303 | type, title, date, abstract, genre and note pass through unchanged |
| Normalizer.NormalizePassThroughContext | src/App.tsx:303 | location, organization, time_range, runtime and language pass through unchanged |
| Normalizer.NormalizeParent | src/App.tsx:304 | the parent is normalised by the same rules, or is `null` when absent |
| Normalizer.NormalizeChain | src/App.tsx:304 | following `parent` `d` times reaches the normalised entry `d` steps up the chain, and one step past the last entry reaches `null` |
| Emitter.RewriteKey | src/App.tsx:355 | a key keeps its length, every `_` becomes `-`, nothing else changes, and no `_` is left |
| Emitter.Dropped | src/App.tsx:350-352 | the three values the replacer drops: `""`, `null` and an empty array; `Emitter.EmitKeepsKept` and `Emitter.EmitIsClean` state what follows from it |
| Emitter.Emit | src/App.tsx:349-359 | the replacer applied through the tree; `Emitter.EmitItems`, `Emitter.EmitFieldsMembers`, `Emitter.EmitIsClean` and `Emitter.EmitIdempotent` state what it does |
| Emitter.EmitFields | src/App.tsx:353-356 | the object branch: kept entries with rewritten keys, dropped ones gone; `Emitter.EmitFieldsMembers` and `Emitter.EmitFieldsClean` state it |
| Emitter.EmitItems | src/App.tsx:349-359 | an array keeps its length under the replacer; each element the replacer drops becomes `null` and every other element is emitted in its place |
| Emitter.LabelOrDefault | src/App.tsx:23 | a blank label becomes `label`, and any other label is kept |
| Emitter.EmittedToggledPerson | src/App.tsx:339-359 | a combined name toggled to fields is emitted as written as `{combined-name: s, name: s}`, and as intended as `{name: s}` |
| Emitter.EmitKeepsKept | src/App.tsx:350-358 | a value the replacer keeps is not turned into one it drops |
| Emitter.EmitIsClean | src/App.tsx:349-359 | the output has no key with `_` and no object value `""`, `null` or `[]` |
| Emitter.EmitItemsClean | src/App.tsx:349-359 | the same, for the elements of an array |
| Emitter.EmitFieldsClean | src/App.tsx:349-359 | the same, for the entries of an object |
| Emitter.RewriteKeyClean | src/App.tsx:355 | a key without `_` is kept as it is |
| Emitter.EmitFixesClean | src/App.tsx:349-359 | the replacer leaves a clean tree unchanged |
| Emitter.EmitItemsFixClean | src/App.tsx:349-359 | the same, for the elements of an array |
| Emitter.EmitFieldsFixClean | src/App.tsx:349-359 | the same, for the entries of an object |
| Emitter.EmitIdempotent | src/App.tsx:349-359 | a second pass of the replacer changes nothing |
| Emitter.EmitFieldsMembers | src/App.tsx:350-356 | an object's output entries are exactly its kept entries, with rewritten keys and processed values |
| Emitter.RewriteKeyInjective | src/App.tsx:355 | two keys without `-` that rewrite to the same key are equal |
| Emitter.EmittedField | src/App.tsx:301-359 | an entry key appears in the output, under its rewritten name, exactly when the archive gate lets it through and its normalised value is not dropped, and then it holds that value processed |
| Emitter.EmittedKeys | src/App.tsx:301-359 | every output key is the rewritten name of a key of the entry |
| Emitter.MakeYamlShape | src/App.tsx:349 | the output is a single-key mapping from the rewritten label (blank meaning `label`) to the processed entry |
| Emitter.MakeYaml | src/App.tsx:349 | `make_yaml` as written for the label, with persons rendered by the corrected rule (see Findings): the label wrapper under the replacer; `Emitter.MakeYamlShape` states its shape and `Emitter.SnakeCaseLabelRewritten` its rewritten label |
| Emitter.MakeYamlKeepingLabel | src/App.tsx:349 | the corrected `make_yaml`: one entry, under the label exactly as typed (blank meaning `label`), holding the processed entry |
| Emitter.MakeYamlKeepsLabelIff | src/App.tsx:349 | the written and the corrected label rule give the same document exactly when the label has no `_` (both with persons rendered by the corrected rule) |
| Emitter.SnakeCaseLabelRewritten | src/App.tsx:349 | the label `smith_2020` is written as `smith-2020`, and kept as `smith_2020` by the corrected rule |
| Emitter.EmittedParent | src/App.tsx:304 | `parent` appears exactly when the entry has a parent, and holds the parent processed by the same rules |
| Emitter.EmittedArchiveLocation | src/App.tsx:333-336 | `archive-location` appears exactly when archive and archive location are both set |
| Emitter.EmittedCallNumber | src/App.tsx:333-336 | `call-number` appears exactly when archive and call number are both set |
| Emitter.EmittedPageRange | src/App.tsx:316 | `page-range` appears exactly when the page range is set, as a number when it is all digits |
| Emitter.EmittedType | src/App.tsx:303 | the type is always written |
| Emitter.EmittedTitle | src/App.tsx:303 | a set title is written unchanged |
| Emitter.EmittedDate | src/App.tsx:303 | a set date is written as a string, never as a number |
| Emitter.EmittedSoleAuthor | src/App.tsx:305 | a sole author with a combined name is written as a bare string, not a list |
| Emitter.EmittedNoDefaultEditor | src/App.tsx:306 | a sole editor left empty is not written |
| Emitter.EmittedBarePublisher | src/App.tsx:320-325 | a publisher without a location is written as its bare name |
| Emitter.Doe2020 | src/App.tsx:349-359 | the worked example `doe2020`: a book with type, title, author `Jane Doe` (bare), date `2020` and publisher `Acme` (bare), with no editor and no parent |
| Lists.InsertAfter | src/App.tsx:720-724 | the default goes in right after item `i`; the items before it keep their places and the items after it move up by one |
| Lists.RemoveAt | src/App.tsx:733-736 | item `i` goes; the items before it keep their places and the items after it move down by one |
| Lists.RemoveInserted | src/App.tsx:720-736 | removing the item just inserted gives the list back |
| Lists.InsertAfterCounts | src/App.tsx:720-724 | inserting adds exactly one copy of the default and loses nothing |
| Lists.RemoveAtCounts | src/App.tsx:733-736 | removing loses exactly item `i` |
| Lists.SecondIsInsertAfterFirst | src/App.tsx:681 | setting index 1 of a one-item list appends, the same as inserting after item 0 |
| Lists.ListViewAsWritten | src/App.tsx:653-701 | as written, the single-item layout is used exactly for one-item lists that may not become empty |
| Lists.ClearNeverOffered | src/App.tsx:670-697 | as written, the `-` button that empties a one-item list is never shown |
| Lists.ListViewIntended | src/App.tsx:653-701 | the corrected layout: a bare `+` for an empty list, one input for every one-item list with `-` exactly when the list may become empty, and per-item rows otherwise |
| Lists.Offered | src/App.tsx:653-746 | which button each layout renders; `Lists.OfferedFits`, `Lists.NeverEmptied` and `Lists.EmptiedWhenAllowed` state what follows from it |
| Lists.OfferedFits | src/App.tsx:653-746 | every button either layout renders writes to a list of a length its edit accepts |
| Lists.Apply | src/App.tsx:661-736 | the list after each button's write: `+` on an empty list gives one item, `+` on the only item two, the clear button none, a per-item `+` one more and a per-item `-` one less; the list ends empty exactly after the clear button or the `-` of a sole item |
| Lists.NeverEmptied | src/App.tsx:670-736 | no button that either layout renders empties a non-empty list that may not become empty |
| Lists.EmptiedWhenAllowed | src/App.tsx:670-736 | a one-item list that may become empty is emptied by the per-item `-` as written and by the clear button in the corrected layout |
| Lists.ListInput.constructor | src/App.tsx:630-635 | a list input holds the list, the default item and `allow_empty` it is given |
| Lists.ListInput.AddFirst | src/App.tsx:661 | `+` on an empty list, shown as written, makes it the one default item |
| Lists.ListInput.AddSecond | src/App.tsx:681 | `+` beside the only item, shown as written, appends the default |
| Lists.ListInput.Clear | src/App.tsx:691 | `-` beside the only item, shown in the corrected layout, empties a list that may be empty |
| Lists.ListInput.InsertDefaultAfter | src/App.tsx:720-724 | `+` beside item `i`, shown as written (a one-item list that may be empty included): the list becomes `InsertAfter` of the old list, with one more copy of the default |
| Lists.ListInput.Remove | src/App.tsx:733-736 | `-` beside item `i`, shown as written (a one-item list that may be empty included): the list becomes `RemoveAt` of the old list, without item `i`; a list that may not become empty keeps at least one item |
| Store.Cleared | src/App.tsx:46-48 | clearing keeps the type and resets everything else to the defaults, parent included: with the type set back to `misc` it is the default entry |
| Store.ClearedKeepsOnlyType | src/App.tsx:46-48 | two entries clear to the same entry exactly when they have the same type |
| Store.ClearedIdempotent | src/App.tsx:46-48 | clearing twice is the same as clearing once |
| Store.WithNewParent | src/App.tsx:609-611 | adding a parent changes only the parent link, which becomes the new default parent |
| Store.WithSerial | src/App.tsx:918-922 | writing one identifier slot changes that slot only |
| Store.AddParentEffect | src/App.tsx:609-611 | adding a parent at the top of the chain makes it one longer; the new top is a default entry of the parent kind, and every entry below keeps its own fields |
| Store.DeleteParentEffect | src/App.tsx:622 | deleting a parent cuts the chain just above the entry and drops the whole subtree, keeping the entries below |
| Store.DeleteUndoesAdd | src/App.tsx:609-622 | deleting a parent just added gives the entry back |
| Store.DeletedParentNotEmitted | src/App.tsx:622 | after the top entry's parent is deleted, the output has no `parent` key |
| Store.StripSerial | src/App.tsx:917-936 | the committed identifier loses the one URL prefix it starts with (`https://doi.org/`, `https://dx.doi.org/` or `https://arxiv.org/abs/`), and is left alone when it starts with none |
| Store.StripAfter | src/App.tsx:917-936 | the slot after the loop has tried the prefixes in order; `Store.StripSerial` gives its closed form and `Store.EntryStore.StripSerialPrefix` is proved to compute it |
| Store.SerialStrip | src/App.tsx:932-936 | the three prefixes, in order; `Store.StripSerial` states which one is stripped and `Store.PrefixMarks` that they exclude each other |
| Store.EntryStore.Output | src/App.tsx:23-35 | what the page offers is the single-key mapping from the label as typed (blank meaning `label`) to the processed entry, the corrected `make_yaml` of the Findings; it equals `Emitter.MakeYaml`, the written label rule, whenever the label has no `_`; persons are rendered by the corrected rule in both |
| Store.EntryStore.constructor | src/App.tsx:17-18 | the page starts with an empty label and the default entry |
| Store.EntryStore.ClearFields | src/App.tsx:46-48 | "Clear fields" replaces the entry with its cleared form and leaves the label alone |
| Store.EntryStore.AddParent | src/App.tsx:605-615 | "Add parent" at `depth`, offered only while that entry has no parent, writes the new parent there and lengthens the chain by one |
| Store.EntryStore.DeleteParent | src/App.tsx:618-623 | the delete button of the parent above `depth` unlinks it, and the chain ends at `depth` |
| Store.EntryStore.StripSerialPrefix | src/App.tsx:917-936 | the change handler's loop over the prefixes leaves the slot as `StripAfter` gives it, and touches nothing else |

## Findings

| source | as written | input that shows it | evidently intended | confidence | as-written member | corrected member |
|---|---|---|---|---|---|---|
| src/App.tsx:670-697 | the single-item branch of `ListInput` is taken only when `allow_empty` is false, but the `-` (clear) button inside it is shown only when `allow_empty` is true | any list with `allow_empty`, such as the affiliated groups, holding one item: the per-item layout is shown instead, and the clear button is never rendered | a one-item list that may become empty shows its single input with both `+` and `-` | medium; not executed | Lists.ClearNeverOffered | Lists.ListViewIntended |
| src/App.tsx:339-347 | the toggle (src/App.tsx:766) writes `toggle_person`'s result through the store setter, which merges it into the stored combined person, so the person in fields keeps its `combined_name` key; `preprocess_person` spreads the person and deletes only `kind`, so that key is emitted | type "Jane Doe" as an author and press the toggle: the output holds `author: {combined-name: Jane Doe, name: Jane Doe}` | a person in fields is written with its five fields only: `author: {name: Jane Doe}` | medium; not executed | Normalizer.ToggledPersonLeaks | Normalizer.RenderPerson |
| src/App.tsx:349 | the replacer also runs on the outer `{ [label]: … }` object, so the `_` in the label become `-` like those of the field names | the label `smith_2020`: the entry is written under `smith-2020`, and a citation of `smith_2020` finds nothing | the entry is written under the label as typed | low; not executed | Emitter.SnakeCaseLabelRewritten | Emitter.MakeYamlKeepingLabel |

The finding changes layout only. A one-item list that may be empty can still
be emptied, with the per-item `-` in the code as written or with the clear
button in the corrected layout (`Lists.EmptiedWhenAllowed`). The `ListInput`
methods that the code as written renders are guarded by the written layout
(`Lists.ListViewAsWritten`), so a one-item list that may be empty takes the
per-item `+` and `-`. The clear button exists only in the corrected layout
(`Lists.ListViewIntended`), which guards `Lists.ListInput.Clear`.

The normaliser uses the corrected `Normalizer.RenderPerson`. The leftover
`combined_name` is emitted only by `Normalizer.RenderPersonAsWritten`, and
`Emitter.EmittedToggledPerson` shows the key it adds to the output.

The page's document (`Store.EntryStore.Output`) uses the corrected
`Emitter.MakeYamlKeepingLabel`. The worked example `Emitter.Doe2020` is stated
on `Emitter.MakeYaml`, which follows the written label rule; its label has no
`_`, so the two agree (`Emitter.MakeYamlKeepsLabelIff`). Both build on
`Normalizer.Normalize`, so both render persons by the corrected rule.

## Left out

- Emitter.MakeYaml: written for the label only. It renders persons by the corrected `Normalizer.RenderPerson`, so for an entry holding a toggled person it lacks the `combined-name` the code as written emits; `Emitter.EmittedToggledPerson` gives that person's output as written.
- `read_recursive` (src/App.tsx:75-84): the effect's deep copy of the store. Copying an immutable value gives the value itself, so `Store.EntryStore.Output` reads `data` directly.
- The recompute effect (src/App.tsx:21-38). It snapshots the label and entry and waits for the next animation frame. It then asks the browser whether the form is valid and writes either `""` or the YAML. Validity is DOM state and the scheduling is browser timing. `Store.EntryStore.Output` is the document produced when the form is valid.
- The YAML text itself: quoting, indentation and layout are the external `yaml` library's work. The model stops at the value tree the library is given, after the replacer. That the library turns an element the replacer drops into `null` (`Emitter.EmitItems`) is taken from the library's documented behaviour.
- The regex patterns on dates, times and ranges. The browser enforces them through form validation.
- JSX rendering, focus handling (the `focusers` array), help pop-ups, display capitalisation and the clipboard write.
- `parseInt`'s precision loss on very long digit strings: `Normalizer.TryNumeric` yields the exact number, as an unbounded `nat`.
- Translations, locale redirect, routing and build configuration. They hold no logic of the core.
- Plain field writes of the inputs (`props.set("title", v)`, `set_label`, the type selector, a person's name inputs). Each replaces one string field. The person toggle is not one of these: the store merges the object it writes, and `People.TogglePerson` models the merged person.
- A combined person that was once in fields keeps its old name parts in the store, because the merge leaves them. Nothing reads them, and the next toggle overwrites every one of them, so `People.Person` drops them.
- Store.EntryStore.StripSerialPrefix: takes the committed text `v` as a parameter. It does not model the `oninput` write that precedes it, which has already put `v` in the slot.
- Lists.ListInput: models the list it edits as its own `items`. It does not tie each instance to a store field (author, editor, affiliated, a group's names). Value semantics are faithful because the default item is built afresh for every insertion.
- Store.EntryStore.ClearFields: Solid merges the new object into the store at the top level. Every key is present in the new object, so the merge equals replacing the entry. The model replaces it.
- Emitter.Doe2020: states the keys the example requires and the absence of `editor` and `parent`. It does not enumerate the absence of the other twenty keys one by one; `Emitter.EmittedField` gives each of them.
- Roles and types are enumerations. A role of `""` is `None`, and strings outside the lists cannot be represented; the form only offers list values.
