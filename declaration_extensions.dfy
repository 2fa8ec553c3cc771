/**
 * `ToNamespace` and `ToFullyQualifiedName`: the StringBuilder loops that join a list of
 * declarations into a dotted name, and the pure specification they are proved against.
 */
module DeclarationExtensions {
  import opened Text
  import opened Declarations

  /** The text a segment contributes: the name, then "`n" when it has n > 0 generic parameters. */
  function Segment(name: string, arity: nat): string
  {
    if arity <= 0 then name else name + "`" + Decimal(arity)
  }

  /**
   * A segment is the bare name when there are no generic parameters; otherwise it is the name,
   * a backtick, and digits that read back as the number of generic parameters.
   */
  lemma SegmentShape(name: string, arity: nat)
    ensures arity == 0 ==> Segment(name, arity) == name
    ensures arity > 0 ==>
      var r := Segment(name, arity);
      && |r| > |name| + 1 && r[..|name|] == name && r[|name|] == '`'
      && IsDigits(r[|name| + 1..]) && DecimalValue(r[|name| + 1..]) == arity
  {
    if arity > 0 {
      DecimalRoundTrip(arity);
      assert Segment(name, arity)[|name| + 1..] == Decimal(arity);
    }
  }

  /** What the builder holds after appending `part`: a '.' first only if the builder is not empty. */
  function AppendGated(builder: string, part: string): string
  {
    (if |builder| > 0 then builder + "." else builder) + part
  }

  /** The builder after appending every part in order, each with the length-gated separator. */
  function GatedJoin(parts: seq<string>): string
  {
    if |parts| == 0 then "" else AppendGated(GatedJoin(parts[..|parts| - 1]), parts[|parts| - 1])
  }

  /** The parts from the first non-empty one on. */
  function DropLeadingEmpty(parts: seq<string>): (r: seq<string>)
    ensures |r| > 0 ==> |r[0]| > 0
    ensures |r| <= |parts|
  {
    if |parts| > 0 && parts[0] == "" then DropLeadingEmpty(parts[1..]) else parts
  }

  /** The names of the Namespace entries, in list order. */
  function NamespaceNames(declarations: seq<Declaration>): (r: seq<string>)
    ensures |r| <= |declarations|
  {
    if |declarations| == 0 then []
    else
      var last := declarations[|declarations| - 1];
      NamespaceNames(declarations[..|declarations| - 1])
        + (if last.declarationType == Namespace then [last.name] else [])
  }

  /** The segment of every entry, in list order. */
  function Segments(declarations: seq<Declaration>): (r: seq<string>)
    ensures |r| == |declarations|
  {
    if |declarations| == 0 then []
    else
      var last := declarations[|declarations| - 1];
      Segments(declarations[..|declarations| - 1]) + [Segment(last.name, |last.genericParameters|)]
  }

  /** The specification of `ToNamespace`. */
  function NamespaceOf(declarations: seq<Declaration>): string
  {
    GatedJoin(NamespaceNames(declarations))
  }

  /** The specification of `ToFullyQualifiedName`. */
  function FullyQualifiedNameOf(declarations: seq<Declaration>): string
  {
    GatedJoin(Segments(declarations))
  }

  /** `ToNamespace`: appends the name of every Namespace entry, skipping the others, with a length-gated '.'. */
  method ToNamespace(declarations: seq<Declaration>) returns (s: string)
    ensures s == NamespaceOf(declarations)
  {
    var builder := "";
    for index := 0 to |declarations|
      invariant builder == GatedJoin(NamespaceNames(declarations[..index]))
    {
      NamespaceNamesStep(declarations, index);
      var declaration := declarations[index];
      if declaration.declarationType != Namespace {
        assert NamespaceNames(declarations[..index + 1]) == NamespaceNames(declarations[..index]);
        continue;
      }
      assert NamespaceNames(declarations[..index + 1]) == NamespaceNames(declarations[..index]) + [declaration.name];
      GatedJoinStep(NamespaceNames(declarations[..index]), declaration.name);
      if |builder| > 0 {
        builder := builder + ".";
      }
      builder := builder + declaration.name;
    }
    assert declarations[..|declarations|] == declarations;
    s := builder;
  }

  /** `ToFullyQualifiedName`: appends every entry's name with a length-gated '.', then "`n" for n > 0 generic parameters. */
  method ToFullyQualifiedName(declarations: seq<Declaration>) returns (s: string)
    ensures s == FullyQualifiedNameOf(declarations)
  {
    var builder := "";
    for index := 0 to |declarations|
      invariant builder == GatedJoin(Segments(declarations[..index]))
    {
      var declaration := declarations[index];
      ghost var before := builder;
      ghost var segment := Segment(declaration.name, |declaration.genericParameters|);
      SegmentsStep(declarations, index);
      GatedJoinStep(Segments(declarations[..index]), segment);
      assert GatedJoin(Segments(declarations[..index + 1])) == AppendGated(before, segment);
      if |builder| > 0 {
        builder := builder + ".";
      }
      builder := builder + declaration.name;
      if |declaration.genericParameters| <= 0 {
        continue;
      }
      builder := builder + "`";
      builder := builder + Decimal(|declaration.genericParameters|);
      assert builder == AppendGated(before, segment);
    }
    assert declarations[..|declarations|] == declarations;
    s := builder;
  }

  /** Extending the parts by one appends that part with the gated separator. */
  lemma GatedJoinStep(parts: seq<string>, part: string)
    ensures GatedJoin(parts + [part]) == AppendGated(GatedJoin(parts), part)
  {
    assert (parts + [part])[..|parts|] == parts;
  }

  lemma NamespaceNamesStep(declarations: seq<Declaration>, index: nat)
    requires index < |declarations|
    ensures NamespaceNames(declarations[..index + 1]) == NamespaceNames(declarations[..index])
      + (if declarations[index].declarationType == Namespace then [declarations[index].name] else [])
  {
    assert declarations[..index + 1][..index] == declarations[..index];
  }

  lemma SegmentsStep(declarations: seq<Declaration>, index: nat)
    requires index < |declarations|
    ensures Segments(declarations[..index + 1])
      == Segments(declarations[..index]) + [Segment(declarations[index].name, |declarations[index].genericParameters|)]
  {
    assert declarations[..index + 1][..index] == declarations[..index];
  }

  /**
   * The gated join is `string.Join(".", …)` of the parts from the first non-empty one on:
   * leading empty parts vanish, and any later empty part still leaves its separator.
   */
  lemma {:induction false} GatedJoinIsJoin(parts: seq<string>)
    ensures GatedJoin(parts) == Join(DropLeadingEmpty(parts), ".")
  {
    if |parts| > 0 {
      var init := parts[..|parts| - 1];
      var last := parts[|parts| - 1];
      assert parts == init + [last];
      GatedJoinIsJoin(init);
      GatedJoinStep(init, last);
      DropLeadingEmptyAppend(init, last);
      var dropped := DropLeadingEmpty(init);
      if |dropped| > 0 {
        JoinStartsWithFirst(dropped, ".");
        assert (dropped + [last])[..|dropped|] == dropped;
        assert Join(dropped + [last], ".") == Join(dropped, ".") + "." + last;
      }
    }
  }

  /** Appending a part at the end commutes with dropping leading empties once a non-empty part has been seen. */
  lemma {:induction false} DropLeadingEmptyAppend(parts: seq<string>, last: string)
    ensures |DropLeadingEmpty(parts)| > 0 ==> DropLeadingEmpty(parts + [last]) == DropLeadingEmpty(parts) + [last]
    ensures |DropLeadingEmpty(parts)| == 0 ==> DropLeadingEmpty(parts + [last]) == (if last == "" then [] else [last])
  {
    if |parts| > 0 && parts[0] == "" {
      assert (parts + [last])[1..] == parts[1..] + [last];
      DropLeadingEmptyAppend(parts[1..], last);
    }
  }

  /** With no empty part, the gated join is exactly `string.Join(".", parts)`. */
  lemma GatedJoinOfNonEmpty(parts: seq<string>)
    requires forall i :: 0 <= i < |parts| ==> |parts[i]| > 0
    ensures GatedJoin(parts) == Join(parts, ".")
  {
    GatedJoinIsJoin(parts);
  }

  /** Collecting namespace names distributes over concatenation: it keeps the Namespace entries and drops the rest, in order. */
  lemma {:induction false} NamespaceNamesOfConcat(a: seq<Declaration>, b: seq<Declaration>)
    ensures NamespaceNames(a + b) == NamespaceNames(a) + NamespaceNames(b)
  {
    if |b| > 0 {
      var init := b[..|b| - 1];
      assert (a + b)[..|a + b| - 1] == a + init;
      NamespaceNamesOfConcat(a, init);
    } else {
      assert a + b == a;
    }
  }

  /** A single entry contributes its name exactly when it is a Namespace. */
  lemma NamespaceNamesOfOne(d: Declaration)
    ensures NamespaceNames([d]) == (if d.declarationType == Namespace then [d.name] else [])
  {
    assert [d][..0] == [];
  }

  /** With no Namespace entry, in particular with no entry at all, `ToNamespace` yields "". */
  lemma {:induction false} NamespaceOfWithoutNamespaces(declarations: seq<Declaration>)
    requires forall i :: 0 <= i < |declarations| ==> declarations[i].declarationType != Namespace
    ensures NamespaceNames(declarations) == []
    ensures NamespaceOf(declarations) == ""
  {
    if |declarations| > 0 {
      NamespaceOfWithoutNamespaces(declarations[..|declarations| - 1]);
    }
  }

  /** With non-empty namespace names, `ToNamespace` is those names, in list order, joined by single dots. */
  lemma NamespaceOfIsJoin(declarations: seq<Declaration>)
    requires forall i :: 0 <= i < |declarations| ==> |declarations[i].name| > 0
    ensures NamespaceOf(declarations) == Join(NamespaceNames(declarations), ".")
  {
    NamespaceNamesNonEmpty(declarations);
    GatedJoinOfNonEmpty(NamespaceNames(declarations));
  }

  lemma {:induction false} NamespaceNamesNonEmpty(declarations: seq<Declaration>)
    requires forall i :: 0 <= i < |declarations| ==> |declarations[i].name| > 0
    ensures forall i :: 0 <= i < |NamespaceNames(declarations)| ==> |NamespaceNames(declarations)[i]| > 0
  {
    if |declarations| > 0 {
      NamespaceNamesNonEmpty(declarations[..|declarations| - 1]);
    }
  }

  /** With non-empty names, `ToFullyQualifiedName` is every entry's segment, in list order, joined by single dots. */
  lemma FullyQualifiedNameOfIsJoin(declarations: seq<Declaration>)
    requires forall i :: 0 <= i < |declarations| ==> |declarations[i].name| > 0
    ensures FullyQualifiedNameOf(declarations) == Join(Segments(declarations), ".")
  {
    SegmentsAt(declarations);
    GatedJoinOfNonEmpty(Segments(declarations));
  }

  /** The i-th segment is the i-th entry's segment. */
  lemma {:induction false} SegmentsAt(declarations: seq<Declaration>)
    ensures forall i :: 0 <= i < |declarations| ==>
      Segments(declarations)[i] == Segment(declarations[i].name, |declarations[i].genericParameters|)
  {
    if |declarations| > 0 {
      var init := declarations[..|declarations| - 1];
      SegmentsAt(init);
      assert forall i :: 0 <= i < |init| ==> declarations[i] == init[i];
    }
  }

  /** A segment of a simple name is itself a simple name: the arity suffix adds no dot. */
  lemma SegmentOfSimpleName(name: string, arity: nat)
    requires IsSimpleName(name)
    ensures IsSimpleName(Segment(name, arity))
  {
    if arity > 0 {
      var r := Segment(name, arity);
      var digits := Decimal(arity);
      assert r == name + "`" + digits;
      forall i | 0 <= i < |r| ensures r[i] != '.' {
        if i < |name| {
          assert r[i] == name[i];
        } else if i > |name| {
          assert r[i] == digits[i - |name| - 1];
        }
      }
    }
  }

  /** With simple names, `ToNamespace` neither starts nor ends with a dot and has no two dots in a row. */
  lemma NamespaceOfIsDottedPath(declarations: seq<Declaration>)
    requires forall i :: 0 <= i < |declarations| ==> IsSimpleName(declarations[i].name)
    ensures IsDottedPath(NamespaceOf(declarations))
  {
    NamespaceOfIsJoin(declarations);
    NamespaceNamesSimple(declarations);
    JoinSimpleNamesIsDottedPath(NamespaceNames(declarations));
  }

  lemma {:induction false} NamespaceNamesSimple(declarations: seq<Declaration>)
    requires forall i :: 0 <= i < |declarations| ==> IsSimpleName(declarations[i].name)
    ensures forall i :: 0 <= i < |NamespaceNames(declarations)| ==> IsSimpleName(NamespaceNames(declarations)[i])
  {
    if |declarations| > 0 {
      NamespaceNamesSimple(declarations[..|declarations| - 1]);
    }
  }

  /** With simple names, `ToFullyQualifiedName` neither starts nor ends with a dot and has no two dots in a row. */
  lemma FullyQualifiedNameOfIsDottedPath(declarations: seq<Declaration>)
    requires forall i :: 0 <= i < |declarations| ==> IsSimpleName(declarations[i].name)
    ensures IsDottedPath(FullyQualifiedNameOf(declarations))
  {
    FullyQualifiedNameOfIsJoin(declarations);
    SegmentsAt(declarations);
    forall i | 0 <= i < |declarations|
      ensures IsSimpleName(Segments(declarations)[i])
    {
      SegmentOfSimpleName(declarations[i].name, |declarations[i].genericParameters|);
    }
    JoinSimpleNamesIsDottedPath(Segments(declarations));
  }

  /** Two lists with the same names and the same generic-parameter counts, position by position. */
  predicate SameNamesAndArities(a: seq<Declaration>, b: seq<Declaration>)
  {
    && |a| == |b|
    && forall i :: 0 <= i < |a| ==>
         a[i].name == b[i].name && |a[i].genericParameters| == |b[i].genericParameters|
  }

  /** `ToFullyQualifiedName` looks only at names and generic-parameter counts, never at kinds or parameter names. */
  lemma {:induction false} FullyQualifiedNameOfDependsOnNamesAndArities(a: seq<Declaration>, b: seq<Declaration>)
    requires SameNamesAndArities(a, b)
    ensures FullyQualifiedNameOf(a) == FullyQualifiedNameOf(b)
    ensures Segments(a) == Segments(b)
  {
    if |a| > 0 {
      FullyQualifiedNameOfDependsOnNamesAndArities(a[..|a| - 1], b[..|b| - 1]);
    }
  }

  /** When every entry is a Namespace without generic parameters, the two joins agree. */
  lemma {:induction false} NamespaceOfEqualsFullyQualifiedName(declarations: seq<Declaration>)
    requires forall i :: 0 <= i < |declarations| ==>
      declarations[i].declarationType == Namespace && |declarations[i].genericParameters| == 0
    ensures NamespaceOf(declarations) == FullyQualifiedNameOf(declarations)
    ensures NamespaceNames(declarations) == Segments(declarations)
  {
    if |declarations| > 0 {
      NamespaceOfEqualsFullyQualifiedName(declarations[..|declarations| - 1]);
    }
  }

  /** Namespace entries come first, each without generic parameters; type entries follow. */
  predicate IsNamespacesThenTypes(declarations: seq<Declaration>)
  {
    && (forall i, j :: 0 <= i < j < |declarations| && declarations[j].declarationType == Namespace ==>
          declarations[i].declarationType == Namespace)
    && (forall i :: 0 <= i < |declarations| && declarations[i].declarationType == Namespace ==>
          declarations[i].genericParameters == [])
  }

  /**
   * For a list that has its namespaces before its types, the namespace is the leading part of
   * the fully qualified name: empty, all of it, or followed there by a dot.
   */
  lemma {:induction false} NamespaceOfPrefixesFullyQualifiedName(declarations: seq<Declaration>)
    requires IsNamespacesThenTypes(declarations)
    ensures var ns := NamespaceOf(declarations); var fqn := FullyQualifiedNameOf(declarations);
      ns == "" || ns == fqn || ns + "." <= fqn
  {
    if |declarations| > 0 {
      var n := |declarations| - 1;
      var init := declarations[..n];
      var last := declarations[n];
      if last.declarationType == Namespace {
        NamespaceOfEqualsFullyQualifiedName(declarations);
      } else {
        assert IsNamespacesThenTypes(init) by {
          assert forall i :: 0 <= i < n ==> init[i] == declarations[i];
        }
        NamespaceOfPrefixesFullyQualifiedName(init);
        NamespaceNamesStep(declarations, n);
        SegmentsStep(declarations, n);
        assert declarations[..n + 1] == declarations;
        assert NamespaceNames(declarations) == NamespaceNames(init) + [];
        assert NamespaceNames(declarations) == NamespaceNames(init);
        GatedJoinStep(Segments(init), Segment(last.name, |last.genericParameters|));
      }
    }
  }

  /** The length-gated separator: an empty leading name swallows the dot that would follow it. */
  lemma EmptyLeadingNameSwallowsDot()
    ensures NamespaceOf([Declaration(Namespace, "", []), Declaration(Namespace, "B", [])]) == "B"
  {
    var empty, b := Declaration(Namespace, "", []), Declaration(Namespace, "B", []);
    NamespaceNamesOfOne(empty);
    NamespaceNamesOfOne(b);
    NamespaceNamesOfConcat([empty], [b]);
    assert [empty] + [b] == [empty, b];
    var names := ["", "B"];
    assert NamespaceNames([empty, b]) == names;
    assert names[..1] == [""];
    assert [""][..0] == [];
    assert GatedJoin([""]) == "";
    assert GatedJoin(names) == AppendGated(GatedJoin([""]), "B");
  }

  /** The length-gated separator: an empty name after a non-empty one still leaves its dot. */
  lemma EmptyInnerNameKeepsDot()
    ensures NamespaceOf([Declaration(Namespace, "A", []), Declaration(Namespace, "", []), Declaration(Namespace, "B", [])]) == "A..B"
  {
    var a, empty, b := Declaration(Namespace, "A", []), Declaration(Namespace, "", []), Declaration(Namespace, "B", []);
    var names := ["A", "", "B"];
    assert NamespaceNames([a, empty, b]) == names by {
      NamespaceNamesOfOne(a);
      NamespaceNamesOfOne(empty);
      NamespaceNamesOfOne(b);
      NamespaceNamesOfConcat([a], [empty]);
      assert [a] + [empty] == [a, empty];
      NamespaceNamesOfConcat([a, empty], [b]);
      assert [a, empty] + [b] == [a, empty, b];
    }
    assert GatedJoin(["A", ""]) == "A." by {
      assert ["A", ""][..1] == ["A"];
      assert ["A"][..0] == [];
    }
    assert GatedJoin(names) == "A..B" by {
      assert names[..2] == ["A", ""];
    }
  }
}
