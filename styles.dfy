/**
 * How a drawable fills its store of initial values from the markup: the
 * visibility flag, the inline `style` declarations and the presentation
 * attributes, and the accessors defined over the stored names.
 */
module Styles {
  import opened JsValues

  /** A value a drawable keeps for a property; `undefined` is the absence of a value. */
  datatype Value = Number(n: Num) | Text(s: string) | Flag(b: bool) | Pair(x: Num, y: Num)

  /** A value in a boolean context. */
  predicate IsTruthy(v: Value)
  {
    match v
    case Number(n) => Truthy(n)
    case Text(s) => |s| > 0
    case Flag(b) => b
    case Pair(_, _) => true
  }

  /** The keys of `commandMapping`, in declaration order. */
  const StyleNames: seq<string> :=
    ["fill", "fill-opacity", "stroke-width", "stroke-linejoin", "stroke-linecap", "stroke-miterlimit", "stroke"]

  predicate IsStyleName(name: string)
  {
    name in StyleNames
  }

  /** The two entries of `commandMapping` that carry `parser: parseFloat`. */
  predicate HasParser(name: string)
  {
    name == "fill-opacity" || name == "stroke-width"
  }

  /** `getAttribute(name)`: the attribute's text, or null. */
  function Attribute(attrs: map<string, string>, name: string): Option<string>
  {
    if name in attrs then Some(attrs[name]) else None
  }

  /** The initial `visible`: false only for "hidden" and "collapse". */
  function InitiallyVisible(attrs: map<string, string>): bool
  {
    var v := Attribute(attrs, "visibility");
    !(v == Some("hidden") || v == Some("collapse"))
  }

  // ------------------------------------------------------------ the store

  /** `initialValues` and `properties`, the names that get accessors. */
  datatype Store = Store(initial: map<string, Value>, properties: seq<string>)

  /** What `_mapAttr` stores for a style value: the trimmed text, or its `parseFloat`. */
  function StyleValue(read: NumberReader, name: string, raw: string): Value
  {
    if HasParser(name) then Number(read(Trim(raw))) else Text(Trim(raw))
  }

  /** `_mapAttr(name, raw)` for a value that is present. */
  function Stored(read: NumberReader, st: Store, name: string, raw: string): Store
  {
    Store(st.initial[name := StyleValue(read, name, raw)], st.properties + [name])
  }

  /** `_mapAttr(name, raw)`: trimming a missing value throws. */
  function MapAttr(read: NumberReader, st: Store, name: string, raw: Option<string>): Result<Store, string>
  {
    if raw.None? then Err("undefined has no trim") else Ok(Stored(read, st, name, raw.value))
  }

  /** The name part of an inline declaration (everything before the first `:`). */
  function EntryName(entry: string): string
  {
    Split(entry, ':')[0]
  }

  /** The value part of an inline declaration (between the first and second `:`), if any. */
  function EntryValue(entry: string): Option<string>
  {
    var parts := Split(entry, ':');
    if |parts| > 1 then Some(parts[1]) else None
  }

  /** One pass of the loop in `_parseStyleAttr`. */
  function StyleEntry(read: NumberReader, st: Store, entry: string): Result<Store, string>
  {
    var name := EntryName(entry);
    if |name| == 0 then Ok(st)
    else if IsStyleName(Trim(name)) then MapAttr(read, st, Trim(name), EntryValue(entry))
    else Ok(st)
  }

  /** `_parseStyleAttr` over the `;`-separated entries that remain. */
  function InlineStyles(read: NumberReader, st: Store, entries: seq<string>): Result<Store, string>
    decreases |entries|
  {
    if |entries| == 0 then Ok(st)
    else
      match StyleEntry(read, st, entries[0])
      case Err(e) => Err(e)
      case Ok(st') => InlineStyles(read, st', entries[1..])
  }

  /** `_getPresentStyle` over the style names that remain. */
  function PresentStyles(read: NumberReader, st: Store, names: seq<string>, attrs: map<string, string>): Store
    decreases |names|
  {
    if |names| == 0 then st
    else
      var v := Attribute(attrs, names[0]);
      var st' := if v.Some? && |v.value| > 0 then Stored(read, st, names[0], v.value) else st;
      PresentStyles(read, st', names[1..], attrs)
  }

  /** `_handleStyles`: the inline style when it is a non-empty string, then the presentation attributes. */
  function HandleStyles(read: NumberReader, st: Store, attrs: map<string, string>): Result<Store, string>
  {
    var style := Attribute(attrs, "style");
    var inline := if style.Some? && |style.value| > 0 then InlineStyles(read, st, Split(style.value, ';')) else Ok(st);
    match inline
    case Err(e) => Err(e)
    case Ok(st') => Ok(PresentStyles(read, st', StyleNames, attrs))
  }

  /** No name occurs twice. */
  predicate Distinct(names: seq<string>)
  {
    forall i, j :: 0 <= i < j < |names| ==> names[i] != names[j]
  }

  /** The names after the first are distinct too, and none of them is the first. */
  lemma DistinctTail(names: seq<string>)
    requires Distinct(names) && |names| > 0
    ensures Distinct(names[1..]) && names[0] !in names[1..]
  {
    forall i, j | 0 <= i < j < |names[1..]| ensures names[1..][i] != names[1..][j] {
      assert names[1..][i] == names[i + 1] && names[1..][j] == names[j + 1];
    }
    forall j | 0 <= j < |names[1..]| ensures names[1..][j] != names[0] {
      assert names[1..][j] == names[j + 1];
    }
  }

  // ------------------------------------------------------------ loops of the source

  /** The loop of `_parseStyleAttr`. */
  method ParseStyleAttr(read: NumberReader, st: Store, styleStr: string) returns (r: Result<Store, string>)
    ensures r == InlineStyles(read, st, Split(styleStr, ';'))
  {
    var parts := Split(styleStr, ';');
    var cur := st;
    var i := 0;
    while i < |parts|
      invariant 0 <= i <= |parts|
      invariant InlineStyles(read, cur, parts[i..]) == InlineStyles(read, st, parts)
    {
      assert parts[i..][1..] == parts[i + 1..];
      var step := StyleEntry(read, cur, parts[i]);
      if step.Err? {
        return Err(step.error);
      }
      cur := step.value;
      i := i + 1;
    }
    return Ok(cur);
  }

  /** The loop of `_getPresentStyle`. */
  method GetPresentStyle(read: NumberReader, st: Store, attrs: map<string, string>) returns (r: Store)
    ensures r == PresentStyles(read, st, StyleNames, attrs)
  {
    var cur := st;
    var i := 0;
    while i < |StyleNames|
      invariant 0 <= i <= |StyleNames|
      invariant PresentStyles(read, cur, StyleNames[i..], attrs) == PresentStyles(read, st, StyleNames, attrs)
    {
      assert StyleNames[i..][1..] == StyleNames[i + 1..];
      var v := Attribute(attrs, StyleNames[i]);
      if v.Some? && |v.value| > 0 {
        cur := Stored(read, cur, StyleNames[i], v.value);
      }
      i := i + 1;
    }
    return cur;
  }

  /**
   * `_addAccessors`: each name is defined as a non-configurable accessor, so
   * defining a name a second time throws; on success the accessor names are
   * exactly the stored names.
   */
  method AddAccessors(names: seq<string>) returns (r: Result<set<string>, string>)
    ensures r.Ok? <==> Distinct(names)
    ensures r.Ok? ==> r.value == set n | n in names
    ensures r.Err? ==> r.error == "cannot redefine property"
  {
    var defined: set<string> := {};
    var i := 0;
    while i < |names|
      invariant 0 <= i <= |names|
      invariant defined == set n | n in names[..i]
      invariant Distinct(names[..i])
    {
      if names[i] in defined {
        assert !Distinct(names) by {
          var j :| 0 <= j < i && names[..i][j] == names[i];
          assert names[j] == names[i];
        }
        return Err("cannot redefine property");
      }
      assert names[..i + 1] == names[..i] + [names[i]];
      defined := defined + {names[i]};
      i := i + 1;
    }
    assert names[..i] == names;
    return Ok(defined);
  }

  // ------------------------------------------------------------ properties

  /** A string has a second `:`-separated part exactly when it contains a `:`. */
  lemma EntryValuePresent(entry: string)
    ensures EntryValue(entry).Some? <==> ':' in entry
  {
    SplitSingle(entry, ':');
  }

  /**
   * One inline declaration: an empty or unrecognised name leaves the store as it
   * is; a recognised name without `:` throws; otherwise the trimmed name gets the
   * trimmed (and, for the numeric styles, parsed) value and is listed once more.
   */
  lemma StyleEntryCases(read: NumberReader, st: Store, entry: string)
    ensures var name := Trim(EntryName(entry));
      var r := StyleEntry(read, st, entry);
      && (r.Err? <==> |EntryName(entry)| > 0 && IsStyleName(name) && ':' !in entry)
      && (r.Ok? && |EntryName(entry)| > 0 && IsStyleName(name) ==>
            r.value == Stored(read, st, name, EntryValue(entry).value))
      && (|EntryName(entry)| == 0 || !IsStyleName(name) ==> r == Ok(st))
  {
    EntryValuePresent(entry);
  }

  /** A map agrees with another on every name that is not a style name. */
  ghost predicate SameOffStyle(a: map<string, Value>, b: map<string, Value>)
  {
    forall k :: !IsStyleName(k) ==> (k in a <==> k in b) && (k in a ==> a[k] == b[k])
  }

  /** Every name in the sequence is a style name. */
  predicate AllStyleNames(names: seq<string>)
  {
    forall i :: 0 <= i < |names| ==> IsStyleName(names[i])
  }

  /** `b` is `a` followed by style names only. */
  predicate AppendsStyles(a: seq<string>, b: seq<string>)
  {
    |a| <= |b| && b[..|a|] == a && AllStyleNames(b[|a|..])
  }

  lemma AppendsStylesTransitive(a: seq<string>, b: seq<string>, c: seq<string>)
    requires AppendsStyles(a, b) && AppendsStyles(b, c)
    ensures AppendsStyles(a, c)
  {
    assert c[..|b|][..|a|] == c[..|a|];
    forall i | 0 <= i < |c| - |a|
      ensures IsStyleName(c[|a|..][i])
    {
      if |a| + i < |b| {
        assert c[|a|..][i] == b[|a|..][i];
      } else {
        assert c[|a|..][i] == c[|b|..][|a| + i - |b|];
      }
    }
  }

  /** The inline style touches style names only: every other value and name is kept. */
  lemma {:induction false} InlineTouchesOnlyStyles(read: NumberReader, st: Store, entries: seq<string>)
    ensures InlineStyles(read, st, entries).Ok? ==>
      var r := InlineStyles(read, st, entries).value;
      SameOffStyle(r.initial, st.initial) && AppendsStyles(st.properties, r.properties)
    decreases |entries|
  {
    if |entries| == 0 {
      assert st.properties[|st.properties|..] == [];
    } else {
      var step := StyleEntry(read, st, entries[0]);
      if step.Ok? {
        var st' := step.value;
        StyleEntryCases(read, st, entries[0]);
        assert AppendsStyles(st.properties, st'.properties) by {
          if st' != st {
            assert st'.properties[|st.properties|..] == [Trim(EntryName(entries[0]))];
          } else {
            assert st.properties[|st.properties|..] == [];
          }
        }
        InlineTouchesOnlyStyles(read, st', entries[1..]);
        if InlineStyles(read, st, entries).Ok? {
          var r := InlineStyles(read, st, entries).value;
          assert r == InlineStyles(read, st', entries[1..]).value;
          AppendsStylesTransitive(st.properties, st'.properties, r.properties);
        }
      }
    }
  }

  /** The inline declaration `entry` names the style `p`. */
  predicate Declares(entry: string, p: string)
  {
    |EntryName(entry)| > 0 && IsStyleName(p) && Trim(EntryName(entry)) == p
  }

  /** A name that no declaration names keeps its value, or its absence. */
  lemma {:induction false} InlineKeepsUndeclared(read: NumberReader, st: Store, entries: seq<string>, p: string)
    requires forall i :: 0 <= i < |entries| ==> !Declares(entries[i], p)
    ensures InlineStyles(read, st, entries).Ok? ==>
      var r := InlineStyles(read, st, entries).value;
      (p in r.initial <==> p in st.initial) && (p in st.initial ==> r.initial[p] == st.initial[p])
    decreases |entries|
  {
    if |entries| > 0 {
      var step := StyleEntry(read, st, entries[0]);
      StyleEntryCases(read, st, entries[0]);
      if step.Ok? {
        assert !Declares(entries[0], p);
        assert forall i :: 0 <= i < |entries[1..]| ==> entries[1..][i] == entries[i + 1];
        InlineKeepsUndeclared(read, step.value, entries[1..], p);
      }
    }
  }

  /**
   * The last declaration of a style wins: when the inline style does not
   * throw, that declaration has a value part and the style holds its mapped
   * value.
   */
  lemma {:induction false} InlineLastWins(read: NumberReader, st: Store, entries: seq<string>, p: string, i: nat)
    requires i < |entries| && Declares(entries[i], p)
    requires forall j :: i < j < |entries| ==> !Declares(entries[j], p)
    ensures InlineStyles(read, st, entries).Ok? ==>
      var r := InlineStyles(read, st, entries).value;
      EntryValue(entries[i]).Some? && p in r.initial && r.initial[p] == StyleValue(read, p, EntryValue(entries[i]).value)
    decreases i
  {
    if i == 0 {
      InlineFirstLast(read, st, entries, p);
    } else {
      var step := StyleEntry(read, st, entries[0]);
      if step.Ok? {
        var rest := entries[1..];
        assert rest[i - 1] == entries[i];
        forall j | i - 1 < j < |rest| ensures !Declares(rest[j], p) {
          assert rest[j] == entries[j + 1];
        }
        InlineLastWins(read, step.value, rest, p, i - 1);
        assert InlineStyles(read, st, entries) == InlineStyles(read, step.value, rest);
      } else {
        assert InlineStyles(read, st, entries).Err?;
      }
    }
  }

  /** The first declaration, when no later one names the same style, decides its value. */
  lemma InlineFirstLast(read: NumberReader, st: Store, entries: seq<string>, p: string)
    requires 0 < |entries| && Declares(entries[0], p)
    requires forall j :: 0 < j < |entries| ==> !Declares(entries[j], p)
    ensures InlineStyles(read, st, entries).Ok? ==>
      var r := InlineStyles(read, st, entries).value;
      EntryValue(entries[0]).Some? && p in r.initial && r.initial[p] == StyleValue(read, p, EntryValue(entries[0]).value)
  {
    var step := StyleEntry(read, st, entries[0]);
    StyleEntryCases(read, st, entries[0]);
    if step.Ok? {
      EntryValuePresent(entries[0]);
      var v := EntryValue(entries[0]).value;
      assert step.value == Stored(read, st, p, v);
      assert InlineStyles(read, st, entries) == InlineStyles(read, step.value, entries[1..]);
      forall j | 0 <= j < |entries[1..]| ensures !Declares(entries[1..][j], p) {
        assert entries[1..][j] == entries[j + 1];
      }
      InlineKeepsUndeclared(read, step.value, entries[1..], p);
    }
  }

  /** A throwing declaration makes the whole inline style throw. */
  lemma {:induction false} InlineThrowsOnMissingValue(read: NumberReader, st: Store, entries: seq<string>, i: nat)
    requires i < |entries|
    requires |EntryName(entries[i])| > 0 && IsStyleName(Trim(EntryName(entries[i]))) && ':' !in entries[i]
    ensures InlineStyles(read, st, entries).Err?
    decreases i
  {
    StyleEntryCases(read, st, entries[0]);
    if i > 0 && StyleEntry(read, st, entries[0]).Ok? {
      InlineThrowsOnMissingValue(read, StyleEntry(read, st, entries[0]).value, entries[1..], i - 1);
    }
  }

  /**
   * A presentation pass over distinct names leaves every name in `names` with
   * its non-empty attribute holding that attribute's value, and every other
   * name as it was.
   */
  lemma {:induction false} PresentationValues(read: NumberReader, st: Store, names: seq<string>, attrs: map<string, string>)
    requires Distinct(names)
    ensures var r := PresentStyles(read, st, names, attrs);
      && (forall n :: n in names && n in attrs && |attrs[n]| > 0 ==>
            n in r.initial && r.initial[n] == StyleValue(read, n, attrs[n]))
      && (forall n :: n !in names ==>
            (n in r.initial <==> n in st.initial) && (n in st.initial ==> r.initial[n] == st.initial[n]))
    decreases |names|
  {
    if |names| > 0 {
      var v := Attribute(attrs, names[0]);
      var st' := if v.Some? && |v.value| > 0 then Stored(read, st, names[0], v.value) else st;
      PresentationValues(read, st', names[1..], attrs);
      assert forall n :: n in names && n != names[0] ==> n in names[1..];
      assert names[0] !in names[1..] by {
        forall j | 0 <= j < |names| - 1
          ensures names[1..][j] != names[0]
        {
          assert names[1..][j] == names[j + 1];
        }
      }
    }
  }

  /** The seven style names are distinct. */
  lemma StyleNamesDistinct()
    ensures Distinct(StyleNames)
  {
    forall i, j | 0 <= i < j < |StyleNames|
      ensures StyleNames[i] != StyleNames[j]
    {
      assert |StyleNames[i]| != |StyleNames[j]| || StyleNames[i][0] != StyleNames[j][0];
    }
  }

  /** Every style name starts with `f` or `s` and has one of six lengths; names outside that shape are not style names. */
  lemma StyleNameShape(p: string)
    requires IsStyleName(p)
    ensures |p| in {4, 6, 12, 14, 15, 17} && p[0] in {'f', 's'}
  {
  }

  /**
   * `_handleStyles`: the presentation attributes are applied after the inline
   * style, so a non-empty presentation attribute decides the stored value of its
   * style name; names that are not style names keep their values.
   */
  lemma PresentationOverridesInline(read: NumberReader, st: Store, attrs: map<string, string>)
    ensures HandleStyles(read, st, attrs).Ok? ==>
      var r := HandleStyles(read, st, attrs).value;
      && (forall n :: IsStyleName(n) && n in attrs && |attrs[n]| > 0 ==>
            n in r.initial && r.initial[n] == StyleValue(read, n, attrs[n]))
      && SameOffStyle(r.initial, st.initial)
  {
    var style := Attribute(attrs, "style");
    if style.Some? && |style.value| > 0 {
      InlineTouchesOnlyStyles(read, st, Split(style.value, ';'));
    }
    if HandleStyles(read, st, attrs).Ok? {
      var inline := if style.Some? && |style.value| > 0 then InlineStyles(read, st, Split(style.value, ';')) else Ok(st);
      StyleNamesDistinct();
      PresentationValues(read, inline.value, StyleNames, attrs);
    }
  }

  /** The presentation pass only appends names, and only style names when it goes over style names. */
  lemma {:induction false} PresentedKeepsNames(read: NumberReader, st: Store, names: seq<string>, attrs: map<string, string>)
    ensures forall p :: p in st.properties ==> p in PresentStyles(read, st, names, attrs).properties
    ensures AllStyleNames(names) ==> AppendsStyles(st.properties, PresentStyles(read, st, names, attrs).properties)
    ensures var r := PresentStyles(read, st, names, attrs).properties;
      |st.properties| <= |r| && r[..|st.properties|] == st.properties
    decreases |names|
  {
    if |names| == 0 {
      assert st.properties[|st.properties|..] == [];
    } else {
      var v := Attribute(attrs, names[0]);
      var st' := if v.Some? && |v.value| > 0 then Stored(read, st, names[0], v.value) else st;
      PresentedKeepsNames(read, st', names[1..], attrs);
      var r := PresentStyles(read, st, names, attrs).properties;
      assert r[..|st.properties|] == r[..|st'.properties|][..|st.properties|];
      if AllStyleNames(names) {
        assert AllStyleNames(names[1..]) by {
          forall i | 0 <= i < |names[1..]| ensures IsStyleName(names[1..][i]) {
            assert names[1..][i] == names[i + 1];
          }
        }
        assert AppendsStyles(st.properties, st'.properties) by {
          assert st'.properties[..|st.properties|] == st.properties;
          assert st'.properties == st.properties || st'.properties[|st.properties|..] == [names[0]];
        }
        AppendsStylesTransitive(st.properties, st'.properties, PresentStyles(read, st, names, attrs).properties);
      }
    }
  }

  /** A name with a non-empty presentation attribute is listed after the presentation pass. */
  lemma {:induction false} PresentedListsNames(read: NumberReader, st: Store, names: seq<string>, attrs: map<string, string>, p: string)
    requires p in names && p in attrs && |attrs[p]| > 0
    ensures p in PresentStyles(read, st, names, attrs).properties
    decreases |names|
  {
    var v := Attribute(attrs, names[0]);
    var st' := if v.Some? && |v.value| > 0 then Stored(read, st, names[0], v.value) else st;
    if names[0] == p {
      assert p in st'.properties;
      PresentedKeepsNames(read, st', names[1..], attrs);
    } else {
      PresentedListsNames(read, st', names[1..], attrs, p);
    }
  }

  /** A name with a non-empty presentation attribute is appended by the presentation pass, after the names listed before it. */
  lemma {:induction false} PresentedAppendsName(read: NumberReader, st: Store, names: seq<string>, attrs: map<string, string>, p: string)
    returns (j: nat)
    requires p in names && p in attrs && |attrs[p]| > 0
    ensures |st.properties| <= j < |PresentStyles(read, st, names, attrs).properties|
    ensures PresentStyles(read, st, names, attrs).properties[j] == p
    decreases |names|
  {
    var v := Attribute(attrs, names[0]);
    var st' := if v.Some? && |v.value| > 0 then Stored(read, st, names[0], v.value) else st;
    var r := PresentStyles(read, st, names, attrs).properties;
    assert r == PresentStyles(read, st', names[1..], attrs).properties;
    if names[0] == p {
      PresentedKeepsNames(read, st', names[1..], attrs);
      assert v == Some(attrs[p]);
      assert st'.properties == st.properties + [p];
      assert r[..|st'.properties|][|st.properties|] == p;
      j := |st.properties|;
    } else {
      j := PresentedAppendsName(read, st', names[1..], attrs, p);
    }
  }

  /** A declaration of a style name with a `:` lists that name, when the inline style does not throw. */
  lemma {:induction false} InlineListsName(read: NumberReader, st: Store, entries: seq<string>, i: nat)
    requires i < |entries|
    requires |EntryName(entries[i])| > 0 && IsStyleName(Trim(EntryName(entries[i]))) && ':' in entries[i]
    ensures InlineStyles(read, st, entries).Ok? ==> Trim(EntryName(entries[i])) in InlineStyles(read, st, entries).value.properties
    decreases i
  {
    if i == 0 {
      InlineListsFirst(read, st, entries);
    } else {
      var step := StyleEntry(read, st, entries[0]);
      if step.Ok? {
        assert InlineStyles(read, st, entries) == InlineStyles(read, step.value, entries[1..]);
        InlineListsName(read, step.value, entries[1..], i - 1);
      }
    }
  }

  /** The first declaration's name is listed, and the later ones keep it. */
  lemma InlineListsFirst(read: NumberReader, st: Store, entries: seq<string>)
    requires 0 < |entries|
    requires |EntryName(entries[0])| > 0 && IsStyleName(Trim(EntryName(entries[0]))) && ':' in entries[0]
    ensures InlineStyles(read, st, entries).Ok? ==> Trim(EntryName(entries[0])) in InlineStyles(read, st, entries).value.properties
  {
    var step := StyleEntry(read, st, entries[0]);
    StyleEntryCases(read, st, entries[0]);
    if step.Ok? {
      var p := Trim(EntryName(entries[0]));
      assert step.value.properties == st.properties + [p];
      var rest := InlineStyles(read, step.value, entries[1..]);
      assert InlineStyles(read, st, entries) == rest;
      InlineTouchesOnlyStyles(read, step.value, entries[1..]);
      if rest.Ok? {
        var r := rest.value.properties;
        assert r[..|step.value.properties|][|st.properties|] == p;
        assert r[|st.properties|] == p;
      }
    }
  }

  /**
   * A style name given both inline (with a `:`) and as a non-empty
   * presentation attribute is listed twice, so `_addAccessors` will throw.
   */
  lemma InlineAndPresentationDuplicate(read: NumberReader, st: Store, attrs: map<string, string>, i: nat)
    requires "style" in attrs && |attrs["style"]| > 0 && i < |Split(attrs["style"], ';')|
    requires var entry := Split(attrs["style"], ';')[i];
      var p := Trim(EntryName(entry));
      |EntryName(entry)| > 0 && IsStyleName(p) && ':' in entry && p in attrs && |attrs[p]| > 0
    ensures HandleStyles(read, st, attrs).Ok? ==> !Distinct(HandleStyles(read, st, attrs).value.properties)
  {
    var entries := Split(attrs["style"], ';');
    var p := Trim(EntryName(entries[i]));
    InlineListsName(read, st, entries, i);
    if HandleStyles(read, st, attrs).Ok? {
      var inner := InlineStyles(read, st, entries).value;
      var r := HandleStyles(read, st, attrs).value.properties;
      PresentedKeepsNames(read, inner, StyleNames, attrs);
      var k :| 0 <= k < |inner.properties| && inner.properties[k] == p;
      var j := PresentedAppendsName(read, inner, StyleNames, attrs, p);
      assert r[k] == r[..|inner.properties|][k] == p;
      assert k < j;
    }
  }

  /**
   * `_handleStyles` keeps every name already listed and lists each style name
   * that has a non-empty presentation attribute.
   */
  lemma HandleStylesListsNames(read: NumberReader, st: Store, attrs: map<string, string>)
    ensures HandleStyles(read, st, attrs).Ok? ==>
      var r := HandleStyles(read, st, attrs).value;
      && (forall p :: p in st.properties ==> p in r.properties)
      && (forall p :: IsStyleName(p) && p in attrs && |attrs[p]| > 0 ==> p in r.properties)
  {
    if HandleStyles(read, st, attrs).Ok? {
      var style := Attribute(attrs, "style");
      var inner := if style.Some? && |style.value| > 0 then InlineStyles(read, st, Split(style.value, ';')).value else st;
      if style.Some? && |style.value| > 0 {
        InlineTouchesOnlyStyles(read, st, Split(style.value, ';'));
        forall p | p in st.properties ensures p in inner.properties {
          var j :| 0 <= j < |st.properties| && st.properties[j] == p;
          assert inner.properties[..|st.properties|][j] == p;
        }
      }
      PresentedKeepsNames(read, inner, StyleNames, attrs);
      forall p | IsStyleName(p) && p in attrs && |attrs[p]| > 0
        ensures p in HandleStyles(read, st, attrs).value.properties
      {
        PresentedListsNames(read, inner, StyleNames, attrs, p);
      }
    }
  }

  /**
   * `_handleStyles` keeps every name already listed and every value of a name
   * that is not a style name, and lists each style name that has a non-empty
   * presentation attribute with that attribute's value.
   */
  lemma HandleStylesKeeps(read: NumberReader, st: Store, attrs: map<string, string>)
    ensures HandleStyles(read, st, attrs).Ok? ==>
      var r := HandleStyles(read, st, attrs).value;
      && SameOffStyle(r.initial, st.initial)
      && (forall p :: p in st.properties ==> p in r.properties)
      && (forall p :: IsStyleName(p) && p in attrs && |attrs[p]| > 0 ==>
            p in r.properties && p in r.initial && r.initial[p] == StyleValue(read, p, attrs[p]))
  {
    PresentationOverridesInline(read, st, attrs);
    HandleStylesListsNames(read, st, attrs);
  }

  /** `_handleStyles` only appends names, and only style names. */
  lemma HandleStylesAppends(read: NumberReader, st: Store, attrs: map<string, string>)
    ensures HandleStyles(read, st, attrs).Ok? ==> AppendsStyles(st.properties, HandleStyles(read, st, attrs).value.properties)
  {
    if HandleStyles(read, st, attrs).Ok? {
      var style := Attribute(attrs, "style");
      var inner := if style.Some? && |style.value| > 0 then InlineStyles(read, st, Split(style.value, ';')).value else st;
      if style.Some? && |style.value| > 0 {
        InlineTouchesOnlyStyles(read, st, Split(style.value, ';'));
      } else {
        assert st.properties[..|st.properties|] == st.properties && st.properties[|st.properties|..] == [];
      }
      assert AllStyleNames(StyleNames);
      PresentedKeepsNames(read, inner, StyleNames, attrs);
      AppendsStylesTransitive(st.properties, inner.properties, HandleStyles(read, st, attrs).value.properties);
    }
  }

  /** An inline declaration of a style name without `:` makes `_handleStyles` throw. */
  lemma MissingValueThrows(read: NumberReader, st: Store, attrs: map<string, string>, i: nat)
    requires "style" in attrs && i < |Split(attrs["style"], ';')|
    requires var entry := Split(attrs["style"], ';')[i];
      |EntryName(entry)| > 0 && IsStyleName(Trim(EntryName(entry))) && ':' !in entry
    ensures HandleStyles(read, st, attrs).Err?
  {
    InlineThrowsOnMissingValue(read, st, Split(attrs["style"], ';'), i);
  }
}
