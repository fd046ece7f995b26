/** The character profile list of langchain_app.py: a JSON file holding a list of
    profiles, read by `load_profiles` and upserted by name by `save_profile`. */
module Profiles {
  import opened Wrappers

  /** One example pair of a profile, `{"question": ..., "answer": ...}`. */
  datatype QnA = QnA(question: string, answer: string)

  /** A character profile, `{"name": ..., "system_prompt": ..., "sample_qna": [...]}`. */
  datatype Profile = Profile(name: string, systemPrompt: string, sampleQna: seq<QnA>)

  /** What reading the profiles file finds: no file, text that does not parse as JSON,
      or a parsed list of profiles. */
  datatype FileContents = Missing | Malformed | Json(profiles: seq<Profile>)

  /** The list that `load_profiles` returns for these file contents. */
  function LoadedProfiles(f: FileContents): (r: seq<Profile>)
    ensures f.Json? ==> r == f.profiles
    ensures f.Missing? || f.Malformed? ==> r == []
  {
    if f.Json? then f.profiles else []
  }

  /** How many entries of `ps` carry the name `name`. */
  function CountNamed(ps: seq<Profile>, name: string): (n: nat)
    ensures n <= |ps|
  {
    if ps == [] then 0
    else (if ps[0].name == name then 1 else 0) + CountNamed(ps[1..], name)
  }

  /** The list comprehension of `save_profile`: the entries whose name is not `name`, in order. */
  function WithoutName(ps: seq<Profile>, name: string): (r: seq<Profile>)
    ensures |r| == |ps| - CountNamed(ps, name)
  {
    if ps == [] then []
    else if ps[0].name == name then WithoutName(ps[1..], name)
    else [ps[0]] + WithoutName(ps[1..], name)
  }

  /** The comprehension keeps exactly the entries whose name differs. */
  lemma {:induction false} WithoutNameMembers(ps: seq<Profile>, name: string)
    ensures forall q :: q in WithoutName(ps, name) <==> q in ps && q.name != name
  {
    if ps != [] {
      WithoutNameMembers(ps[1..], name);
      assert ps == [ps[0]] + ps[1..];
    }
  }

  /** The in-memory effect of `save_profile`: drop every entry named like `p`, then append `p`. */
  function Upsert(ps: seq<Profile>, p: Profile): (r: seq<Profile>)
    ensures |r| == |ps| - CountNamed(ps, p.name) + 1
    ensures r[|r| - 1] == p
    ensures forall q :: q in r <==> q == p || (q in ps && q.name != p.name)
  {
    WithoutNameMembers(ps, p.name);
    WithoutName(ps, p.name) + [p]
  }

  /** `next((p for p in profiles if p["name"] == name), None)`: the first entry with that name. */
  function FindByName(ps: seq<Profile>, name: string): (r: Option<Profile>)
    ensures r.None? <==> forall i :: 0 <= i < |ps| ==> ps[i].name != name
    ensures r.Some? ==> r.value in ps && r.value.name == name
  {
    if ps == [] then None
    else if ps[0].name == name then Some(ps[0])
    else FindByName(ps[1..], name)
  }

  /** `[p["name"] for p in profiles]`. */
  function Names(ps: seq<Profile>): (names: seq<string>)
    ensures |names| == |ps|
    ensures forall i :: 0 <= i < |ps| ==> names[i] == ps[i].name
  {
    seq(|ps|, i requires 0 <= i < |ps| => ps[i].name)
  }

  /** Counting distributes over concatenation. */
  lemma {:induction false} CountNamedAppend(a: seq<Profile>, b: seq<Profile>, name: string)
    ensures CountNamed(a + b, name) == CountNamed(a, name) + CountNamed(b, name)
  {
    if a == [] {
      assert a + b == b;
    } else {
      assert (a + b)[1..] == a[1..] + b;
      CountNamedAppend(a[1..], b, name);
    }
  }

  /** Dropping by name distributes over concatenation, so every kept entry keeps its
      place relative to every other kept entry. */
  lemma {:induction false} WithoutNameAppend(a: seq<Profile>, b: seq<Profile>, name: string)
    ensures WithoutName(a + b, name) == WithoutName(a, name) + WithoutName(b, name)
  {
    if a == [] {
      assert a + b == b;
    } else {
      assert (a + b)[1..] == a[1..] + b;
      WithoutNameAppend(a[1..], b, name);
    }
  }

  /** After dropping by name, no entry of that name is left. */
  lemma {:induction false} WithoutNameNoneLeft(ps: seq<Profile>, name: string)
    ensures CountNamed(WithoutName(ps, name), name) == 0
  {
    if ps != [] {
      WithoutNameNoneLeft(ps[1..], name);
    }
  }

  /** Dropping by one name leaves the entries of every other name exactly as they were. */
  lemma {:induction false} WithoutNameOtherCount(ps: seq<Profile>, name: string, other: string)
    requires other != name
    ensures CountNamed(WithoutName(ps, name), other) == CountNamed(ps, other)
  {
    if ps != [] {
      WithoutNameOtherCount(ps[1..], name, other);
    }
  }

  /** After an upsert exactly one entry carries the new profile's name, and it is the last. */
  lemma UpsertSingleEntry(ps: seq<Profile>, p: Profile)
    ensures CountNamed(Upsert(ps, p), p.name) == 1
    ensures Upsert(ps, p)[|Upsert(ps, p)| - 1] == p
    ensures forall i :: 0 <= i < |Upsert(ps, p)| - 1 ==> Upsert(ps, p)[i].name != p.name
  {
    WithoutNameNoneLeft(ps, p.name);
    WithoutNameMembers(ps, p.name);
    CountNamedAppend(WithoutName(ps, p.name), [p], p.name);
    assert CountNamed([p], p.name) == 1;
    var kept := WithoutName(ps, p.name);
    forall i | 0 <= i < |Upsert(ps, p)| - 1
      ensures Upsert(ps, p)[i].name != p.name
    {
      assert Upsert(ps, p)[i] == kept[i] && kept[i] in kept;
    }
  }

  /** An upsert keeps every other entry, in its original relative order, before the new one. */
  lemma UpsertKeepsOthers(a: seq<Profile>, q: Profile, b: seq<Profile>, p: Profile)
    requires q.name != p.name
    ensures Upsert(a + [q] + b, p) == WithoutName(a, p.name) + [q] + WithoutName(b, p.name) + [p]
  {
    WithoutNameAppend(a + [q], b, p.name);
    WithoutNameAppend(a, [q], p.name);
    assert WithoutName([q], p.name) == [q];
  }

  /** Looking a name up after an upsert: the upserted name finds the new profile, every
      other name finds what it found before. */
  lemma {:induction false} UpsertFind(ps: seq<Profile>, p: Profile, name: string)
    ensures FindByName(Upsert(ps, p), name) ==
            if name == p.name then Some(p) else FindByName(ps, name)
  {
    if ps == [] {
      assert Upsert(ps, p) == [p];
    } else if ps[0].name == p.name {
      assert Upsert(ps, p) == Upsert(ps[1..], p);
      UpsertFind(ps[1..], p, name);
    } else {
      assert Upsert(ps, p) == [ps[0]] + Upsert(ps[1..], p);
      assert Upsert(ps, p)[1..] == Upsert(ps[1..], p);
      UpsertFind(ps[1..], p, name);
    }
  }

  /** Saving the same profile twice stores the same list as saving it once, and a later
      save under a name wins over an earlier one. */
  lemma UpsertLastWins(ps: seq<Profile>, p: Profile, p': Profile)
    requires p'.name == p.name
    ensures Upsert(Upsert(ps, p), p') == Upsert(ps, p')
  {
    WithoutNameAppend(WithoutName(ps, p.name), [p], p.name);
    WithoutNameTwice(ps, p.name);
    assert WithoutName([p], p.name) == [];
  }

  /** Dropping by a name twice is dropping it once. */
  lemma {:induction false} WithoutNameTwice(ps: seq<Profile>, name: string)
    ensures WithoutName(WithoutName(ps, name), name) == WithoutName(ps, name)
  {
    if ps != [] {
      WithoutNameTwice(ps[1..], name);
      if ps[0].name != name {
        assert ([ps[0]] + WithoutName(ps[1..], name))[1..] == WithoutName(ps[1..], name);
      }
    }
  }

  /** The first entry with a name is the one `FindByName` returns. */
  lemma {:induction false} FindByNameFirst(ps: seq<Profile>, name: string, i: nat)
    requires i < |ps| && ps[i].name == name
    requires forall j :: 0 <= j < i ==> ps[j].name != name
    ensures FindByName(ps, name) == Some(ps[i])
  {
    if i > 0 {
      FindByNameFirst(ps[1..], name, i - 1);
    }
  }

  /** The profiles file. `save_profile` and `load_profiles` reach it through a path; here it
      is one object whose contents the save replaces. */
  class ProfileFile {
    var contents: FileContents

    constructor (initial: FileContents)
      ensures contents == initial
    {
      contents := initial;
    }

    /** `load_profiles`: the parsed list, or [] when the file is missing or malformed. */
    method Load() returns (ps: seq<Profile>)
      ensures contents.Json? ==> ps == contents.profiles
      ensures !contents.Json? ==> ps == []
    {
      match contents
      case Json(profiles) => ps := profiles;
      case Missing => ps := [];
      case Malformed => ps := [];
    }

    /** `save_profile`: read the list (missing or malformed reads as []), drop every entry
        with this name, append the new profile and write the list back. */
    method SaveProfile(profileName: string, systemPrompt: string, sampleQna: seq<QnA>)
      modifies this
      ensures contents == Json(Upsert(LoadedProfiles(old(contents)), Profile(profileName, systemPrompt, sampleQna)))
    {
      var profile := Profile(profileName, systemPrompt, sampleQna);
      var profiles := Load();
      profiles := WithoutName(profiles, profileName);
      profiles := profiles + [profile];
      contents := Json(profiles);
    }
  }
}
