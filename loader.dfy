/**
 * Finding and listing tracer classes by name: `get_tracer` of the oldest
 * generation and `get_tracer_class` of the `_private` generation (the same
 * search), and the two `list_tracer` generators.  Importing a module is an
 * oracle: a module path either imports, giving its namespace, or raises
 * ModuleNotFoundError.
 */
module TracerLoader {
  import opened Common

  /** One module-level name and its `__doc__` (None when there is no docstring). */
  datatype Member = Member(name: string, doc: Option<string>)

  /** A module's `__dict__`, in definition order. */
  datatype PyModule = PyModule(members: seq<Member>)

  /** The modules that import successfully; any other path raises ModuleNotFoundError. */
  type Importable = map<string, PyModule>

  /** POSSIBLE_TRACER_PATHS of the oldest generation. */
  const LEGACY_TRACER_PATHS: seq<string> := ["pid_monitor.std_tracer", "pid_monitor.additional_tracers"]

  /** POSSIBLE_TRACER_PATHS of the `_private` generation. */
  const PRIVATE_TRACER_PATHS: seq<string> :=
    ["pid_monitor._private.dt_mvc.std_tracer", "pid_monitor._private.dt_mvc.additional_tracer"]

  const NO_DOCS: string := "No docs available"

  /** getattr(mod, name): the member called `name`, if any. */
  function GetAttr(m: PyModule, name: string): (r: Option<Member>)
    ensures r.Some? ==> r.value.name == name && r.value in m.members
    ensures r.None? ==> forall i :: 0 <= i < |m.members| ==> m.members[i].name != name
  {
    FindMember(m.members, name)
  }

  function FindMember(members: seq<Member>, name: string): (r: Option<Member>)
    ensures r.Some? ==> r.value.name == name && r.value in members
    ensures r.None? ==> forall i :: 0 <= i < |members| ==> members[i].name != name
  {
    if members == [] then None
    else if members[0].name == name then Some(members[0])
    else FindMember(members[1..], name)
  }

  /** The position of the first path that imports. */
  function FirstImportable(paths: seq<string>, importable: Importable): (r: Option<nat>)
    ensures r.Some? ==> r.value < |paths| && paths[r.value] in importable
    ensures r.Some? ==> forall j :: 0 <= j < r.value ==> paths[j] !in importable
    ensures r.None? ==> forall j :: 0 <= j < |paths| ==> paths[j] !in importable
  {
    if paths == [] then None
    else if paths[0] in importable then Some(0)
    else match FirstImportable(paths[1..], importable)
      case None => None
      case Some(k) => Some(k + 1)
  }

  /**
   * get_tracer / get_tracer_class as written: the paths are tried in order,
   * an import failure moves on to the next path, but the getattr on the first
   * module that imports is final, so its AttributeError escapes.
   */
  function GetTracerClass(paths: seq<string>, importable: Importable, name: string): (r: Result<Member>)
    ensures r.Ok? ==> r.value.name == name
    ensures r.Err? ==> r.fault == ModuleNotFound || r.fault == AttributeError
    ensures r == Err(ModuleNotFound) <==> forall j :: 0 <= j < |paths| ==> paths[j] !in importable
  {
    if paths == [] then Err(ModuleNotFound)
    else if paths[0] !in importable then GetTracerClass(paths[1..], importable, name)
    else match GetAttr(importable[paths[0]], name)
      case Some(m) => Ok(m)
      case None => Err(AttributeError)
  }

  /**
   * What the search returns, stated through the first importable path: the
   * member of that module, AttributeError when it lacks the name, and
   * ModuleNotFoundError exactly when no path imports.
   */
  lemma {:induction false} GetTracerClassSearchesFirstImportable(paths: seq<string>, importable: Importable, name: string)
    ensures var r := GetTracerClass(paths, importable, name);
            var k := FirstImportable(paths, importable);
            && (r == Err(ModuleNotFound) <==> k.None?)
            && (k.Some? ==> r == (match GetAttr(importable[paths[k.value]], name)
                                  case Some(m) => Ok(m)
                                  case None => Err(AttributeError)))
  {
    if paths != [] && paths[0] !in importable {
      GetTracerClassSearchesFirstImportable(paths[1..], importable, name);
    }
  }

  /** The search as evidently intended: a module without the name is skipped as well. */
  function FindTracerClass(paths: seq<string>, importable: Importable, name: string): (r: Result<Member>)
    ensures r.Ok? ==> r.value.name == name && exists j :: 0 <= j < |paths| && paths[j] in importable && r.value in importable[paths[j]].members
    ensures r.Err? ==> r.fault == ModuleNotFound
  {
    if paths == [] then Err(ModuleNotFound)
    else if paths[0] in importable && GetAttr(importable[paths[0]], name).Some? then
      Ok(GetAttr(importable[paths[0]], name).value)
    else FindTracerClass(paths[1..], importable, name)
  }

  predicate Defines(importable: Importable, path: string, name: string)
  {
    path in importable && GetAttr(importable[path], name).Some?
  }

  /**
   * The corrected search finds a class exactly when some importable path
   * defines it, and then takes it from the first such path.
   */
  lemma {:induction false} FindTracerClassIsComplete(paths: seq<string>, importable: Importable, name: string)
    ensures FindTracerClass(paths, importable, name).Ok? <==>
              exists j :: 0 <= j < |paths| && Defines(importable, paths[j], name)
    ensures FindTracerClass(paths, importable, name).Ok? ==>
              exists j :: 0 <= j < |paths| && Defines(importable, paths[j], name)
                          && FindTracerClass(paths, importable, name).value == GetAttr(importable[paths[j]], name).value
                          && forall i :: 0 <= i < j ==> !Defines(importable, paths[i], name)
  {
    if paths != [] {
      FindTracerClassIsComplete(paths[1..], importable, name);
      if !Defines(importable, paths[0], name) {
        if FindTracerClass(paths, importable, name).Ok? {
          var j :| 1 <= j + 1 <= |paths| && 0 <= j < |paths[1..]| && Defines(importable, paths[1..][j], name)
                  && FindTracerClass(paths[1..], importable, name).value == GetAttr(importable[paths[1..][j]], name).value
                  && forall i :: 0 <= i < j ==> !Defines(importable, paths[1..][i], name);
          assert Defines(importable, paths[j + 1], name);
          assert forall i :: 0 <= i < j + 1 ==> !Defines(importable, paths[i], name) by {
            forall i | 0 <= i < j + 1
              ensures !Defines(importable, paths[i], name)
            {
              if i > 0 {
                assert paths[i] == paths[1..][i - 1];
              }
            }
          }
        } else {
          forall j | 0 <= j < |paths|
            ensures !Defines(importable, paths[j], name)
          {
            if j > 0 {
              assert paths[j] == paths[1..][j - 1];
            }
          }
        }
      }
    }
  }

  /**
   * The two searches differ: with both tracer modules importable and the
   * class defined only in the additional one, the search as written raises
   * AttributeError while the corrected search finds it.
   */
  lemma AdditionalTracersAreUnreachable()
    ensures var c := Member("ExtraTracerThread", None);
            var imp := map[PRIVATE_TRACER_PATHS[0] := PyModule([]), PRIVATE_TRACER_PATHS[1] := PyModule([c])];
            && GetTracerClass(PRIVATE_TRACER_PATHS, imp, c.name) == Err(AttributeError)
            && FindTracerClass(PRIVATE_TRACER_PATHS, imp, c.name) == Ok(c)
  {
    var c := Member("ExtraTracerThread", None);
    var imp := map[PRIVATE_TRACER_PATHS[0] := PyModule([]), PRIVATE_TRACER_PATHS[1] := PyModule([c])];
    assert PRIVATE_TRACER_PATHS[0] != PRIVATE_TRACER_PATHS[1];
    assert PRIVATE_TRACER_PATHS[1..][1..] == [];
  }

  /** The two searches agree whenever the first importable module defines the name. */
  lemma {:induction false} SearchesAgreeOnFirstModule(paths: seq<string>, importable: Importable, name: string)
    requires GetTracerClass(paths, importable, name).Ok?
    ensures FindTracerClass(paths, importable, name) == GetTracerClass(paths, importable, name)
  {
    if paths != [] && paths[0] !in importable {
      SearchesAgreeOnFirstModule(paths[1..], importable, name);
    }
  }

  // ----- list_tracer -----

  /** The whitespace str.strip() removes (the ASCII part of Python's set). */
  predicate IsSpace(c: char)
  {
    c == ' ' || c == '\t' || c == '\n' || c == '\r' || c == '\U{0B}' || c == '\U{0C}'
    || c == '\U{1C}' || c == '\U{1D}' || c == '\U{1E}' || c == '\U{1F}'
  }

  /** The characters str.splitlines() splits on (the ASCII part). */
  predicate IsLineBreak(c: char)
  {
    c == '\n' || c == '\r' || c == '\U{0B}' || c == '\U{0C}' || c == '\U{1C}' || c == '\U{1D}' || c == '\U{1E}'
  }

  function TrimLeft(s: string): (r: string)
    ensures |r| <= |s| && r == s[|s| - |r|..]
    ensures r == [] || !IsSpace(r[0])
    ensures forall i :: 0 <= i < |s| - |r| ==> IsSpace(s[i])
  {
    if s != [] && IsSpace(s[0]) then
      var r := TrimLeft(s[1..]);
      assert forall i :: 1 <= i < |s| - |r| ==> s[i] == s[1..][i - 1];
      r
    else s
  }

  function TrimRight(s: string): (r: string)
    ensures |r| <= |s| && r == s[..|r|]
    ensures r == [] || !IsSpace(r[|r| - 1])
    ensures forall i :: |r| <= i < |s| ==> IsSpace(s[i])
  {
    if s != [] && IsSpace(s[|s| - 1]) then TrimRight(s[..|s| - 1]) else s
  }

  /** str.strip(). */
  function Strip(s: string): (r: string)
    ensures r == [] || (!IsSpace(r[0]) && !IsSpace(r[|r| - 1]))
    ensures r == [] <==> forall i :: 0 <= i < |s| ==> IsSpace(s[i])
  {
    var l := TrimLeft(s);
    var r := TrimRight(l);
    assert r != [] ==> r[0] == l[0];
    StripEmptyOnlyIfBlank(s);
    r
  }

  lemma StripEmptyOnlyIfBlank(s: string)
    ensures TrimRight(TrimLeft(s)) == [] <==> forall i :: 0 <= i < |s| ==> IsSpace(s[i])
  {
    var l := TrimLeft(s);
    assert l == [] || l[0] == s[|s| - |l|];
  }

  /** str.splitlines()[0] of a string that does not start with a line break: its first line. */
  function FirstLine(s: string): (r: string)
    ensures |r| <= |s| && r == s[..|r|]
    ensures forall i :: 0 <= i < |r| ==> !IsLineBreak(r[i])
    ensures |r| == |s| || IsLineBreak(s[|r|])
  {
    if s == [] || IsLineBreak(s[0]) then [] else [s[0]] + FirstLine(s[1..])
  }

  /** One entry of list_tracer: the class name and its documentation. */
  datatype Listed = Listed(name: string, doc: string)

  predicate TracerAt(name: string, i: int)
  {
    0 <= i <= |name| - 6 && name[i..i + 6] == "Tracer"
  }

  /** name.__contains__("Tracer"). */
  predicate ContainsTracer(name: string)
  {
    exists i :: 0 <= i <= |name| && TracerAt(name, i)
  }

  predicate StartsWithBase(name: string)
  {
    |name| >= 4 && name[..4] == "Base"
  }

  /**
   * The members a listing keeps, each rendered as an entry, in member order:
   * the filter-and-map the listings below are specified by.
   */
  function Select(members: seq<Member>, keep: Member -> bool, render: Member -> Listed): seq<Listed>
  {
    if members == [] then []
    else (if keep(members[0]) then [render(members[0])] else []) + Select(members[1..], keep, render)
  }

  /** Every position one further on. */
  function Shift(idx: seq<nat>): (r: seq<nat>)
    ensures |r| == |idx| && forall k :: 0 <= k < |idx| ==> r[k] == idx[k] + 1
  {
    if idx == [] then [] else [idx[0] + 1] + Shift(idx[1..])
  }

  /**
   * `s` lists every kept member of `members` exactly once, in member order, as
   * its rendered entry, and nothing else: `idx` gives, for each entry, the
   * position of the member it comes from.
   */
  predicate Positions(members: seq<Member>, keep: Member -> bool, render: Member -> Listed, s: seq<Listed>, idx: seq<nat>)
  {
    && |idx| == |s|
    && (forall k :: 0 <= k < |idx| ==> idx[k] < |members| && keep(members[idx[k]]) && s[k] == render(members[idx[k]]))
    && (forall k, l :: 0 <= k < l < |idx| ==> idx[k] < idx[l])
    && (forall j :: 0 <= j < |members| && keep(members[j]) ==> j in idx)
  }

  /** A selection lists every kept member exactly once, in member order, as its rendered entry, and nothing else. */
  lemma {:induction false} SelectPositions(members: seq<Member>, keep: Member -> bool, render: Member -> Listed)
    returns (idx: seq<nat>)
    ensures Positions(members, keep, render, Select(members, keep, render), idx)
  {
    if members == [] {
      return [];
    }
    var t := Select(members[1..], keep, render);
    var rest := SelectPositions(members[1..], keep, render);
    var shifted := Shift(rest);
    SelectTailPositions(members, members[1..], t, keep, render, rest);
    if keep(members[0]) {
      idx := [0] + shifted;
      SelectKeptHead(members, keep, render, Select(members, keep, render), t, shifted);
    } else {
      idx := shifted;
      SelectDroppedHead(members, keep, render, t, shifted);
      assert Select(members, keep, render) == t;
    }
  }

  /** The positions of a selection from all but the first member, counted in the whole sequence. */
  lemma SelectTailPositions(members: seq<Member>, tail: seq<Member>, t: seq<Listed>, keep: Member -> bool,
                            render: Member -> Listed, rest: seq<nat>)
    requires |members| == |tail| + 1 && forall i :: 0 <= i < |tail| ==> members[i + 1] == tail[i]
    requires Positions(tail, keep, render, t, rest)
    ensures var shifted := Shift(rest);
            && |shifted| == |t|
            && (forall k :: 0 <= k < |shifted| ==>
                  0 < shifted[k] < |members| && keep(members[shifted[k]]) && t[k] == render(members[shifted[k]]))
            && (forall k, l :: 0 <= k < l < |shifted| ==> shifted[k] < shifted[l])
            && (forall j :: 1 <= j < |members| && keep(members[j]) ==> j in shifted)
  {
    TailEntries(members, tail, t, keep, render, rest);
    TailComplete(members, tail, keep, rest);
  }

  /** Each entry of the tail's selection renders the member one position further on in the whole sequence. */
  lemma TailEntries(members: seq<Member>, tail: seq<Member>, t: seq<Listed>, keep: Member -> bool,
                    render: Member -> Listed, rest: seq<nat>)
    requires |members| == |tail| + 1 && forall i :: 0 <= i < |tail| ==> members[i + 1] == tail[i]
    requires |rest| == |t|
    requires forall k :: 0 <= k < |rest| ==> rest[k] < |tail| && keep(tail[rest[k]]) && t[k] == render(tail[rest[k]])
    ensures var shifted := Shift(rest);
            forall k :: 0 <= k < |shifted| ==>
              0 < shifted[k] < |members| && keep(members[shifted[k]]) && t[k] == render(members[shifted[k]])
  {
    var shifted := Shift(rest);
    forall k | 0 <= k < |rest|
      ensures 0 < shifted[k] < |members| && keep(members[shifted[k]]) && t[k] == render(members[shifted[k]])
    {
      assert members[shifted[k]] == tail[rest[k]];
    }
  }

  /** Every kept member after the first has a shifted position of the tail's selection. */
  lemma TailComplete(members: seq<Member>, tail: seq<Member>, keep: Member -> bool, rest: seq<nat>)
    requires |members| == |tail| + 1 && forall i :: 0 <= i < |tail| ==> members[i + 1] == tail[i]
    requires forall j :: 0 <= j < |tail| && keep(tail[j]) ==> j in rest
    ensures forall j :: 1 <= j < |members| && keep(members[j]) ==> j in Shift(rest)
  {
    var shifted := Shift(rest);
    forall j | 1 <= j < |members| && keep(members[j])
      ensures j in shifted
    {
      assert tail[j - 1] == members[j];
      var k :| 0 <= k < |rest| && rest[k] == j - 1;
      assert shifted[k] == j;
    }
  }

  /** The step of SelectPositions where the first member is kept. */
  lemma SelectKeptHead(members: seq<Member>, keep: Member -> bool, render: Member -> Listed, s: seq<Listed>,
                       t: seq<Listed>, shifted: seq<nat>)
    requires members != [] && keep(members[0]) && s == [render(members[0])] + t && |shifted| == |t|
    requires forall k :: 0 <= k < |shifted| ==>
               0 < shifted[k] < |members| && keep(members[shifted[k]]) && t[k] == render(members[shifted[k]])
    requires forall k, l :: 0 <= k < l < |shifted| ==> shifted[k] < shifted[l]
    requires forall j :: 1 <= j < |members| && keep(members[j]) ==> j in shifted
    ensures Positions(members, keep, render, s, [0] + shifted)
  {
    KeptHeadEntries(members, keep, render, s, t, shifted);
    KeptHeadOrdered(shifted);
    KeptHeadComplete(members, keep, shifted);
  }

  /** With the first member kept, each entry is the rendering of the member at its position. */
  lemma KeptHeadEntries(members: seq<Member>, keep: Member -> bool, render: Member -> Listed, s: seq<Listed>,
                        t: seq<Listed>, shifted: seq<nat>)
    requires members != [] && keep(members[0]) && s == [render(members[0])] + t && |shifted| == |t|
    requires forall k :: 0 <= k < |shifted| ==>
               0 < shifted[k] < |members| && keep(members[shifted[k]]) && t[k] == render(members[shifted[k]])
    ensures var idx := [0] + shifted;
            forall k :: 0 <= k < |idx| ==> idx[k] < |members| && keep(members[idx[k]]) && s[k] == render(members[idx[k]])
  {
    var idx := [0] + shifted;
    forall k | 0 <= k < |idx|
      ensures idx[k] < |members| && keep(members[idx[k]]) && s[k] == render(members[idx[k]])
    {
      if k > 0 {
        assert idx[k] == shifted[k - 1] && s[k] == t[k - 1];
      }
    }
  }

  /** Putting position 0 in front of increasing positive positions keeps them increasing. */
  lemma KeptHeadOrdered(shifted: seq<nat>)
    requires forall k :: 0 <= k < |shifted| ==> 0 < shifted[k]
    requires forall k, l :: 0 <= k < l < |shifted| ==> shifted[k] < shifted[l]
    ensures var idx := [0] + shifted; forall k, l :: 0 <= k < l < |idx| ==> idx[k] < idx[l]
  {
    var idx := [0] + shifted;
    forall k, l | 0 <= k < l < |idx|
      ensures idx[k] < idx[l]
    {
      assert idx[l] == shifted[l - 1];
      if k > 0 {
        assert idx[k] == shifted[k - 1];
      }
    }
  }

  /** With the first member kept, every kept member has a position. */
  lemma KeptHeadComplete(members: seq<Member>, keep: Member -> bool, shifted: seq<nat>)
    requires forall j :: 1 <= j < |members| && keep(members[j]) ==> j in shifted
    ensures forall j :: 0 <= j < |members| && keep(members[j]) ==> j in [0] + shifted
  {
    forall j | 0 <= j < |members| && keep(members[j])
      ensures j in [0] + shifted
    {
      if j > 0 {
        assert j in shifted;
      }
    }
  }

  /** The step of SelectPositions where the first member is left out. */
  lemma SelectDroppedHead(members: seq<Member>, keep: Member -> bool, render: Member -> Listed, t: seq<Listed>,
                          shifted: seq<nat>)
    requires members != [] && !keep(members[0]) && |shifted| == |t|
    requires forall k :: 0 <= k < |shifted| ==>
               0 < shifted[k] < |members| && keep(members[shifted[k]]) && t[k] == render(members[shifted[k]])
    requires forall k, l :: 0 <= k < l < |shifted| ==> shifted[k] < shifted[l]
    requires forall j :: 1 <= j < |members| && keep(members[j]) ==> j in shifted
    ensures Positions(members, keep, render, t, shifted)
  {
    forall j | 0 <= j < |members| && keep(members[j])
      ensures j in shifted
    {
      assert j != 0;
    }
  }

  /** A class list_tracer lists in the `_private` generation: its name contains "Tracer". */
  predicate Listable(m: Member)
  {
    ContainsTracer(m.name)
  }

  /**
   * The documentation a `_private` entry shows: the first line of the
   * stripped docstring, or "No docs available" when there is no docstring or
   * it is blank.
   */
  function DocLine(doc: Option<string>): (d: string)
    ensures d == NO_DOCS || OneLine(d)
    ensures doc.None? ==> d == NO_DOCS
    ensures doc.Some? && Strip(doc.value) != [] ==>
              && |d| <= |Strip(doc.value)| && d == Strip(doc.value)[..|d|]
              && (|d| == |Strip(doc.value)| || IsLineBreak(Strip(doc.value)[|d|]))
  {
    if doc.None? || Strip(doc.value) == [] then NO_DOCS
    else
      FirstLineOfStripped(doc.value);
      FirstLine(Strip(doc.value))
  }

  function Entry(m: Member): Listed
  {
    Listed(m.name, DocLine(m.doc))
  }

  /** A class list_tracer lists in the oldest generation: "Tracer" in its name, not a Base class. */
  predicate LegacyListable(m: Member)
  {
    ContainsTracer(m.name) && !StartsWithBase(m.name)
  }

  /** An entry of the oldest generation: the whole stripped docstring, or "No docs available". */
  function LegacyEntry(m: Member): Listed
  {
    Listed(m.name, if m.doc.Some? then Strip(m.doc.value) else NO_DOCS)
  }

  /** Oldest generation: "Tracer" names not starting with "Base", with the stripped docstring. */
  function ListModuleLegacy(members: seq<Member>): (r: seq<Listed>)
    ensures |r| <= |members|
    ensures r == Select(members, LegacyListable, LegacyEntry)
  {
    if members == [] then []
    else
      var m := members[0];
      var rest := ListModuleLegacy(members[1..]);
      if ContainsTracer(m.name) && !StartsWithBase(m.name) then
        [Listed(m.name, if m.doc.Some? then Strip(m.doc.value) else NO_DOCS)] + rest
      else rest
  }

  /** The concatenation of listings, in order. */
  function Flatten(ls: seq<seq<Listed>>): seq<Listed>
  {
    if ls == [] then [] else ls[0] + Flatten(ls[1..])
  }

  /** Each path's listing by `list`, in path order; a path that does not import lists nothing. */
  function PathListings(paths: seq<string>, importable: Importable, list: seq<Member> -> seq<Listed>): seq<seq<Listed>>
  {
    seq(|paths|, j requires 0 <= j < |paths| => if paths[j] in importable then list(importable[paths[j]].members) else [])
  }

  /** Dropping the first path drops the first listing. */
  lemma PathListingsTail(paths: seq<string>, importable: Importable, list: seq<Member> -> seq<Listed>)
    requires paths != []
    ensures PathListings(paths, importable, list)[1..] == PathListings(paths[1..], importable, list)
  {
  }

  /** list_tracer of the oldest generation, over the importable paths in order. */
  function ListTracerLegacy(paths: seq<string>, importable: Importable): (r: seq<Listed>)
    ensures r == Flatten(PathListings(paths, importable, ListModuleLegacy))
    ensures forall e :: e in r ==> ContainsTracer(e.name) && !StartsWithBase(e.name)
    ensures forall e :: e in r ==>
              exists j :: 0 <= j < |paths| && paths[j] in importable && Declares(importable[paths[j]], e.name)
  {
    if paths == [] then []
    else
      var here := if paths[0] in importable then ListModuleLegacy(importable[paths[0]].members) else [];
      var rest := ListTracerLegacy(paths[1..], importable);
      assert forall e :: e in rest ==>
               exists j :: 1 <= j < |paths| && paths[j] in importable && Declares(importable[paths[j]], e.name) by {
        forall e | e in rest
          ensures exists j :: 1 <= j < |paths| && paths[j] in importable && Declares(importable[paths[j]], e.name)
        {
          var j :| 0 <= j < |paths[1..]| && paths[1..][j] in importable && Declares(importable[paths[1..][j]], e.name);
          assert paths[j + 1] == paths[1..][j];
        }
      }
      PathListingsTail(paths, importable, ListModuleLegacy);
      if paths[0] in importable then ListModuleLegacyFilters(importable[paths[0]].members); here + rest
      else here + rest
  }

  /**
   * The oldest list_tracer is complete: every member of an importable module
   * whose name contains "Tracer" and does not start with "Base" is listed,
   * with its stripped docstring or "No docs available".
   */
  lemma {:induction false} ListTracerLegacyListsEveryTracer(paths: seq<string>, importable: Importable, j: nat, m: Member)
    requires j < |paths| && paths[j] in importable && m in importable[paths[j]].members && LegacyListable(m)
    ensures LegacyEntry(m) in ListTracerLegacy(paths, importable)
  {
    if j == 0 {
      var members := importable[paths[0]].members;
      var idx := SelectPositions(members, LegacyListable, LegacyEntry);
      var i :| 0 <= i < |members| && members[i] == m;
      var k :| 0 <= k < |idx| && idx[k] == i;
      assert LegacyEntry(m) in ListModuleLegacy(members);
    } else {
      ListTracerLegacyListsEveryTracer(paths[1..], importable, j - 1, m);
    }
  }

  /** The module declares a member called `name`. */
  predicate Declares(m: PyModule, name: string)
  {
    exists i :: 0 <= i < |m.members| && m.members[i].name == name
  }

  /**
   * Every listed name of the oldest generation contains "Tracer", does not
   * start with "Base", and is a member of one of the importable modules.
   */
  lemma {:induction false} ListModuleLegacyFilters(members: seq<Member>)
    ensures forall e :: e in ListModuleLegacy(members) ==>
              ContainsTracer(e.name) && !StartsWithBase(e.name)
              && exists m :: m in members && m.name == e.name
  {
    if members != [] {
      ListModuleLegacyFilters(members[1..]);
      forall e | e in ListModuleLegacy(members[1..])
        ensures exists m :: m in members && m.name == e.name
      {
        var m :| m in members[1..] && m.name == e.name;
        assert m in members;
      }
    }
  }

  /**
   * The oldest listing, entry by entry: every member whose name contains
   * "Tracer" and does not start with "Base" is listed once, in member order,
   * with its stripped docstring or "No docs available"; nothing else is.
   */
  lemma ListModuleLegacyListsEveryTracer(members: seq<Member>) returns (idx: seq<nat>)
    ensures var r := ListModuleLegacy(members);
            && |idx| == |r|
            && (forall k :: 0 <= k < |idx| ==>
                  && idx[k] < |members|
                  && ContainsTracer(members[idx[k]].name) && !StartsWithBase(members[idx[k]].name)
                  && r[k] == Listed(members[idx[k]].name,
                                    if members[idx[k]].doc.Some? then Strip(members[idx[k]].doc.value) else NO_DOCS))
            && (forall k, l :: 0 <= k < l < |idx| ==> idx[k] < idx[l])
            && (forall j :: 0 <= j < |members| && ContainsTracer(members[j].name) && !StartsWithBase(members[j].name)
                  ==> j in idx)
  {
    idx := SelectPositions(members, LegacyListable, LegacyEntry);
  }

  /**
   * The outcome of the `_private` generator: the entries yielded and, when it
   * stopped early, the exception that escaped.
   */
  datatype Listing = Listing(entries: seq<Listed>, escaped: Option<Fault>)

  function Prepend(e: Listed, l: Listing): Listing
  {
    Listing([e] + l.entries, l.escaped)
  }

  /**
   * `_private` generation as written: every name containing "Tracer" (the
   * Base classes included), documented with the first line of the stripped
   * docstring; a docstring of whitespace only has no first line, and the
   * IndexError escapes the generator.
   */
  function ListModuleAsWritten(members: seq<Member>): (r: Listing)
    ensures r.escaped.Some? ==> r.escaped.value == IndexError
    ensures r.escaped.None? <==>
              forall j :: 0 <= j < |members| && ContainsTracer(members[j].name) && members[j].doc.Some?
                ==> Strip(members[j].doc.value) != []
    ensures r.entries <= ListModule(members)
  {
    if members == [] then Listing([], None)
    else
      var m := members[0];
      if !ContainsTracer(m.name) then ListModuleAsWritten(members[1..])
      else if m.doc.None? then Prepend(Listed(m.name, NO_DOCS), ListModuleAsWritten(members[1..]))
      else if Strip(m.doc.value) == [] then Listing([], Some(IndexError))
      else Prepend(Listed(m.name, FirstLine(Strip(m.doc.value))), ListModuleAsWritten(members[1..]))
  }

  /** The same listing as evidently intended: an empty docstring counts as none. */
  function ListModule(members: seq<Member>): (r: seq<Listed>)
    ensures |r| <= |members|
    ensures r == Select(members, Listable, Entry)
  {
    if members == [] then []
    else
      var m := members[0];
      var rest := ListModule(members[1..]);
      if !ContainsTracer(m.name) then rest
      else if m.doc.None? || Strip(m.doc.value) == [] then [Listed(m.name, NO_DOCS)] + rest
      else [Listed(m.name, FirstLine(Strip(m.doc.value)))] + rest
  }

  /**
   * list_tracer of the `_private` generation as evidently intended (a blank
   * docstring counts as none), over the importable paths in order.
   */
  function ListTracer(paths: seq<string>, importable: Importable): (r: seq<Listed>)
    ensures r == Flatten(PathListings(paths, importable, ListModule))
    ensures forall e :: e in r ==> ContainsTracer(e.name) && (e.doc == NO_DOCS || OneLine(e.doc))
  {
    if paths == [] then []
    else
      PathListingsTail(paths, importable, ListModule);
      if paths[0] in importable then
        ListModuleDocsAreOneLine(importable[paths[0]].members);
        ListModule(importable[paths[0]].members) + ListTracer(paths[1..], importable)
      else ListTracer(paths[1..], importable)
  }

  /**
   * The corrected `_private` list_tracer is complete: every member of an
   * importable module whose name contains "Tracer" is listed with its
   * documentation line.
   */
  lemma {:induction false} ListTracerListsEveryTracer(paths: seq<string>, importable: Importable, j: nat, m: Member)
    requires j < |paths| && paths[j] in importable && m in importable[paths[j]].members && Listable(m)
    ensures Entry(m) in ListTracer(paths, importable)
  {
    if j == 0 {
      var members := importable[paths[0]].members;
      var idx := SelectPositions(members, Listable, Entry);
      var i :| 0 <= i < |members| && members[i] == m;
      var k :| 0 <= k < |idx| && idx[k] == i;
      assert Entry(m) in ListModule(members);
    } else {
      ListTracerListsEveryTracer(paths[1..], importable, j - 1, m);
    }
  }

  /**
   * list_tracer of the `_private` generation as written: the modules are
   * listed in path order, and the IndexError of a blank docstring escapes
   * the generator, so no later module is listed.
   */
  function ListTracerAsWritten(paths: seq<string>, importable: Importable): (r: Listing)
    ensures r.escaped.Some? ==> r.escaped.value == IndexError
    ensures r.escaped.None? ==> r.entries == ListTracer(paths, importable)
    ensures r.entries <= ListTracer(paths, importable)
  {
    if paths == [] then Listing([], None)
    else
      var rest := ListTracerAsWritten(paths[1..], importable);
      if paths[0] !in importable then rest
      else
        var here := ListModuleAsWritten(importable[paths[0]].members);
        if here.escaped.Some? then here
        else
          ListingsAgreeWithoutBlankDocs(importable[paths[0]].members);
          Listing(here.entries + rest.entries, rest.escaped)
  }

  /** A documentation line as listed: a non-blank start and no line break. */
  predicate OneLine(doc: string)
  {
    doc != [] && !IsSpace(doc[0]) && forall i :: 0 <= i < |doc| ==> !IsLineBreak(doc[i])
  }

  /** The first line of a non-blank stripped docstring is one line. */
  lemma FirstLineOfStripped(doc: string)
    requires Strip(doc) != []
    ensures OneLine(FirstLine(Strip(doc)))
  {
    var s := Strip(doc);
    assert !IsLineBreak(s[0]);
    assert FirstLine(s) != [] && FirstLine(s)[0] == s[0];
  }

  /**
   * The corrected listing holds only "Tracer" names (Base classes are not
   * filtered out) and documents each with a single non-blank line or "No
   * docs available".
   */
  lemma {:induction false} ListModuleDocsAreOneLine(members: seq<Member>)
    ensures forall e :: e in ListModule(members) ==> ContainsTracer(e.name)
    ensures forall e :: e in ListModule(members) ==> e.doc == NO_DOCS || OneLine(e.doc)
  {
    if members != [] {
      ListModuleDocsAreOneLine(members[1..]);
      var m := members[0];
      if ContainsTracer(m.name) && m.doc.Some? && Strip(m.doc.value) != [] {
        FirstLineOfStripped(m.doc.value);
      }
    }
  }

  /**
   * The corrected `_private` listing, entry by entry: every member whose
   * name contains "Tracer" (Base classes included) is listed once, in member
   * order, with its documentation line; nothing else is.
   */
  lemma ListModuleListsEveryTracer(members: seq<Member>) returns (idx: seq<nat>)
    ensures var r := ListModule(members);
            && |idx| == |r|
            && (forall k :: 0 <= k < |idx| ==>
                  && idx[k] < |members| && ContainsTracer(members[idx[k]].name)
                  && r[k] == Listed(members[idx[k]].name, DocLine(members[idx[k]].doc)))
            && (forall k, l :: 0 <= k < l < |idx| ==> idx[k] < idx[l])
            && (forall j :: 0 <= j < |members| && ContainsTracer(members[j].name) ==> j in idx)
  {
    idx := SelectPositions(members, Listable, Entry);
  }

  /** Where the as-written generator does not raise, it yields the corrected listing. */
  lemma {:induction false} ListingsAgreeWithoutBlankDocs(members: seq<Member>)
    requires ListModuleAsWritten(members).escaped.None?
    ensures ListModuleAsWritten(members).entries == ListModule(members)
  {
    if members != [] {
      ListingsAgreeWithoutBlankDocs(members[1..]);
    }
  }

  /** Every path that imports gives a module satisfying `ok`. */
  predicate EveryImported(paths: seq<string>, importable: Importable, ok: PyModule -> bool)
  {
    forall j :: 0 <= j < |paths| && paths[j] in importable ==> ok(importable[paths[j]])
  }

  /** The as-written listing of the module runs to its end. */
  predicate ListsWithoutEscape(m: PyModule)
  {
    ListModuleAsWritten(m.members).escaped.None?
  }

  /**
   * The as-written list_tracer runs to the end exactly when no importable
   * module has a "Tracer" member with a blank docstring.
   */
  lemma {:induction false} ListTracerAsWrittenEscapes(paths: seq<string>, importable: Importable)
    ensures ListTracerAsWritten(paths, importable).escaped.None? <==> EveryImported(paths, importable, ListsWithoutEscape)
  {
    if paths != [] {
      ListTracerAsWrittenEscapes(paths[1..], importable);
      EveryImportedUnfold(paths, importable, ListsWithoutEscape);
    }
  }

  /** Every imported module is `ok` exactly when the first one is (if it imports) and every later one is. */
  lemma EveryImportedUnfold(paths: seq<string>, importable: Importable, ok: PyModule -> bool)
    requires paths != []
    ensures EveryImported(paths, importable, ok) <==>
              (paths[0] in importable ==> ok(importable[paths[0]])) && EveryImported(paths[1..], importable, ok)
  {
    if EveryImported(paths, importable, ok) {
      forall j | 0 <= j < |paths[1..]| && paths[1..][j] in importable
        ensures ok(importable[paths[1..][j]])
      {
        assert paths[1..][j] == paths[j + 1];
      }
    }
    if EveryImported(paths[1..], importable, ok) {
      forall j | 1 <= j < |paths| && paths[j] in importable
        ensures ok(importable[paths[j]])
      {
        assert paths[j] == paths[1..][j - 1];
      }
    }
  }

  /**
   * A blank docstring in std_tracer hides every tracer of additional_tracer
   * from the as-written list_tracer, while the corrected one lists both.
   */
  lemma BlankDocstringHidesLaterModules()
    ensures var x, y := Member("ProcessXTracerThread", Some("  \n")), Member("ProcessYTracerThread", None);
            var imp := map[PRIVATE_TRACER_PATHS[0] := PyModule([x]), PRIVATE_TRACER_PATHS[1] := PyModule([y])];
            && ListTracerAsWritten(PRIVATE_TRACER_PATHS, imp) == Listing([], Some(IndexError))
            && ListTracer(PRIVATE_TRACER_PATHS, imp) == [Listed(x.name, NO_DOCS), Listed(y.name, NO_DOCS)]
  {
    var x, y := Member("ProcessXTracerThread", Some("  \n")), Member("ProcessYTracerThread", None);
    var imp := map[PRIVATE_TRACER_PATHS[0] := PyModule([x]), PRIVATE_TRACER_PATHS[1] := PyModule([y])];
    var std, extra := PRIVATE_TRACER_PATHS[0], PRIVATE_TRACER_PATHS[1];
    assert std != extra;
    assert imp[std].members == [x] && imp[extra].members == [y];
    BlankDocstringEscapes();
    UndocumentedTracerListed(y);
    var rest := PRIVATE_TRACER_PATHS[1..];
    assert rest == [extra] && rest[1..] == [];
    assert ListTracerAsWritten(PRIVATE_TRACER_PATHS, imp) == ListModuleAsWritten([x]);
    assert ListTracer(rest, imp) == ListModule([y]);
    assert ListTracer(PRIVATE_TRACER_PATHS, imp) == ListModule([x]) + ListTracer(rest, imp);
  }

  /** ProcessYTracerThread, undocumented, is listed alone with "No docs available". */
  lemma UndocumentedTracerListed(m: Member)
    requires m == Member("ProcessYTracerThread", None)
    ensures ListModule([m]) == [Listed(m.name, NO_DOCS)]
  {
    assert TracerAt(m.name, 8);
    assert [m][1..] == [];
  }

  /** A tracer whose docstring is blank stops the as-written listing with IndexError. */
  lemma BlankDocstringEscapes()
    ensures ListModuleAsWritten([Member("ProcessXTracerThread", Some("  \n"))]) == Listing([], Some(IndexError))
    ensures ListModule([Member("ProcessXTracerThread", Some("  \n"))]) == [Listed("ProcessXTracerThread", NO_DOCS)]
  {
    assert TracerAt("ProcessXTracerThread", 8);
    assert Strip("  \n") == [];
  }
}
