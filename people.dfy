/**
 * Contributor names (src/App.tsx, `Person`, `default_person`, `toggle_person`).
 * A person is held either as one free-text name or as separate name parts;
 * the source tells the two apart by a unique `Symbol` in its `kind` field,
 * modelled here by the constructor, with `Kind()` as the explicit discriminant.
 *
 * A person in fields is modelled as the store holds it, not as its type
 * declares it: the toggle's write merges the fields object into the stored
 * combined one, so the old `combined_name` key stays on it.
 */
module People {

  datatype PersonKind = PersonCombined | PersonFields

  datatype Person =
    | Combined(combined_name: string)
    | Fields(combined_name: string, name: string, given_name: string, prefix: string, suffix: string, alias: string)
  {
    function Kind(): PersonKind {
      if Combined? then PersonCombined else PersonFields
    }
  }

  /** The person every new author, editor or name slot starts with: an empty combined name. */
  function DefaultPerson(): (p: Person)
    ensures p.Kind() == PersonCombined && p.combined_name == ""
  {
    Combined("")
  }

  /** JavaScript's `s && t`: empty when `s` is empty, `t` otherwise. */
  function IfSet(s: string, t: string): string {
    if s == "" then "" else t
  }

  /** The one-line rendering of name parts used when switching to the combined form:
      `prefix + " "`, the name, then `", " + given_name` and `", " + suffix`,
      each part only when it is non-empty. The alias is not rendered. */
  function JoinedName(name: string, given_name: string, prefix: string, suffix: string): (r: string)
    ensures |r| == |IfSet(prefix, prefix + " ")| + |name| + |IfSet(given_name, ", " + given_name)| + |IfSet(suffix, ", " + suffix)|
    ensures prefix != "" ==> r[..|prefix| + 1] == prefix + " "
    ensures r[|IfSet(prefix, prefix + " ")|..][..|name|] == name
    ensures given_name != "" ==> r[|IfSet(prefix, prefix + " ")| + |name|..][..|given_name| + 2] == ", " + given_name
    ensures suffix != "" ==> r[|r| - |suffix| - 2..] == ", " + suffix
    ensures prefix == given_name == suffix == "" ==> r == name
  {
    var head := IfSet(prefix, prefix + " ");
    var tail := IfSet(suffix, ", " + suffix);
    var given := IfSet(given_name, ", " + given_name);
    var r := head + name + given + tail;
    assert r == head + name + (given + tail);
    MiddleOf(head, name, given + tail);
    MiddleOf(head + name, given, tail);
    assert r[|r| - |tail|..] == tail;
    r
  }

  /** The middle part of a concatenation sits right after the first. */
  lemma MiddleOf(a: string, b: string, c: string)
    ensures (a + b + c)[|a|..][..|b|] == b
  {
    assert (a + b + c)[|a|..] == b + c;
  }

  /** The person as its type declares it: a person in fields without the `combined_name`
      the toggle leaves behind. */
  function WithoutLeftover(p: Person): (r: Person)
    ensures r.Kind() == p.Kind()
  {
    if p.Fields? then p.(combined_name := "") else p
  }

  /** The toggle button, `props.set(toggle_person)`: the person switched to the other
      representation by `toggle_person` and merged into the stored person. Going to fields,
      the whole name lands in `name` and the merge leaves `combined_name` in place. */
  function TogglePerson(p: Person): (r: Person)
    ensures r.Kind() != p.Kind()
    ensures p.Combined? ==> r.name == p.combined_name && r.combined_name == p.combined_name
                             && r.given_name == r.prefix == r.suffix == r.alias == ""
    ensures p.Fields? ==> r.combined_name == JoinedName(p.name, p.given_name, p.prefix, p.suffix)
  {
    match p
    case Fields(_, name, given_name, prefix, suffix, _) =>
      Combined(JoinedName(name, given_name, prefix, suffix))
    case Combined(combined_name) =>
      Fields(combined_name, combined_name, "", "", "", "")
  }

  /** Combined, then fields, then combined gives back the original person. */
  lemma ToggleCombinedRoundTrip(s: string)
    ensures TogglePerson(TogglePerson(Combined(s))) == Combined(s)
  {
  }

  /** With only `name` and possibly `alias` set, the combined form is the bare name,
      and toggling twice gives the name back (losing the alias, and with `combined_name`
      now equal to the name). */
  lemma ToggleNameOnly(c: string, name: string, alias: string)
    ensures TogglePerson(Fields(c, name, "", "", "", alias)) == Combined(name)
    ensures TogglePerson(TogglePerson(Fields(c, name, "", "", "", alias))) == Fields(name, name, "", "", "", "")
  {
  }

  /** Toggling is lossy: neither the alias nor the leftover `combined_name` reaches the combined form. */
  lemma ToggleForgetsAlias(c1: string, c2: string, name: string, given_name: string, prefix: string, suffix: string,
                           a1: string, a2: string)
    ensures TogglePerson(Fields(c1, name, given_name, prefix, suffix, a1))
         == TogglePerson(Fields(c2, name, given_name, prefix, suffix, a2))
  {
  }

  /** After one round trip the person is a fixed point of toggling twice. */
  lemma ToggleTwiceStable(p: Person)
    ensures TogglePerson(TogglePerson(TogglePerson(TogglePerson(p)))) == TogglePerson(TogglePerson(p))
  {
    var q := TogglePerson(TogglePerson(p));
    assert q.Kind() == p.Kind();
    match p
    case Combined(s) => ToggleCombinedRoundTrip(s);
    case Fields(_, _, _, _, _, _) =>
      assert q.given_name == q.prefix == q.suffix == q.alias == "";
      ToggleNameOnly(q.combined_name, q.name, "");
  }
}
