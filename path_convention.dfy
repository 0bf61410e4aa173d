/**
 * Namespaces and paths: `yeoman:jasmine` names the directory
 * `yeoman/jasmine`, and a path is read back as a namespace by the
 * inverse rule.
 */
module PathConvention {
  import opened Strings

  /** `namespace.split(':').join('/')` */
  function NamespaceToPath(ns: string): (path: string)
  {
    Replace(ns, ':', '/')
  }

  /** `rawPath.split('/').join(':')`, how a found generator is stamped with its namespace. */
  function PathToNamespace(p: string): (ns: string)
  {
    Replace(p, '/', ':')
  }

  /**
   * `namespacesToPaths`: one path per namespace, in the same order. No path
   * has a `:` left, and stamping a path gives its namespace back whenever
   * that namespace has no `/`.
   */
  function NamespacesToPaths(namespaces: seq<string>): (paths: seq<string>)
    ensures |paths| == |namespaces|
    ensures forall i :: 0 <= i < |namespaces| ==> paths[i] == NamespaceToPath(namespaces[i])
    ensures forall i :: 0 <= i < |namespaces| ==> ':' !in paths[i]
    ensures forall i :: 0 <= i < |namespaces| && '/' !in namespaces[i] ==> PathToNamespace(paths[i]) == namespaces[i]
  {
    ConventionEach(namespaces);
    seq(|namespaces|, i requires 0 <= i < |namespaces| => NamespaceToPath(namespaces[i]))
  }

  /** Each path is its namespace with every `:` turned into `/` and nothing else changed. */
  lemma NamespaceToPathAt(ns: string)
    ensures |NamespaceToPath(ns)| == |ns|
    ensures forall i :: 0 <= i < |ns| ==>
      NamespaceToPath(ns)[i] == (if ns[i] == ':' then '/' else ns[i])
    ensures ':' !in NamespaceToPath(ns)
  {
    ReplaceIsSubstitute(ns, ':', '/');
  }

  /** Stamping a found path maps it back to the namespace that produced it, when that namespace has no `/`. */
  lemma StampInvertsConvention(ns: string)
    requires '/' !in ns
    ensures PathToNamespace(NamespaceToPath(ns)) == ns
  {
    var p := NamespaceToPath(ns);
    ReplaceIsSubstitute(ns, ':', '/');
    ReplaceIsSubstitute(p, '/', ':');
    assert PathToNamespace(p) == Substitute(p, '/', ':');
    assert forall i :: 0 <= i < |ns| ==> Substitute(p, '/', ':')[i] == ns[i];
  }

  /** The convention's two facts for every namespace of a list. */
  lemma ConventionEach(namespaces: seq<string>)
    ensures forall i :: 0 <= i < |namespaces| ==> ':' !in NamespaceToPath(namespaces[i])
    ensures forall i :: 0 <= i < |namespaces| && '/' !in namespaces[i] ==>
      PathToNamespace(NamespaceToPath(namespaces[i])) == namespaces[i]
  {
    forall i | 0 <= i < |namespaces|
      ensures ':' !in NamespaceToPath(namespaces[i])
      ensures '/' !in namespaces[i] ==> PathToNamespace(NamespaceToPath(namespaces[i])) == namespaces[i]
    {
      NamespaceToPathAt(namespaces[i]);
      if '/' !in namespaces[i] {
        StampInvertsConvention(namespaces[i]);
      }
    }
  }

  /** A namespace with a `/` in it does not survive the round trip. */
  lemma SlashIsNotPreserved(ns: string)
    requires '/' in ns
    ensures PathToNamespace(NamespaceToPath(ns)) != ns
  {
    var p := NamespaceToPath(ns);
    ReplaceIsSubstitute(ns, ':', '/');
    ReplaceIsSubstitute(p, '/', ':');
    var k :| 0 <= k < |ns| && ns[k] == '/';
    assert PathToNamespace(p)[k] == ':';
  }

  /** The path of a namespace splits on `/` into the namespace's segments. */
  lemma PathSegments(ns: string)
    requires '/' !in ns
    ensures Split(NamespaceToPath(ns), '/') == Split(ns, ':')
  {
    var parts := Split(ns, ':');
    forall i | 0 <= i < |parts| ensures '/' !in parts[i] {
      SegmentsOfFree(ns, ':', '/', i);
    }
    SplitJoin(parts, '/');
  }

  /** A character absent from a string is absent from each of its pieces. */
  lemma {:induction false} SegmentsOfFree(s: string, c: char, d: char, i: nat)
    requires d !in s
    requires i < |Split(s, c)|
    ensures d !in Split(s, c)[i]
    decreases |s|
  {
    if |s| > 0 {
      var rest := Split(s[1..], c);
      if s[0] == c {
        if i > 0 { SegmentsOfFree(s[1..], c, d, i - 1); }
      } else if i == 0 {
        SegmentsOfFree(s[1..], c, d, 0);
      } else {
        SegmentsOfFree(s[1..], c, d, i);
      }
    }
  }
}
