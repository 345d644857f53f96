/** Display labels of IRIs: the text after the last '/', as `iri.split('/')[-1]`. */
module IriLabel {

  /** The separator the labels are cut at. */
  const Sep: char := '/'

  /** Puts separated pieces back together: `'/'.join(parts)`. */
  function Join(parts: seq<string>): (s: string)
    requires |parts| >= 1
    decreases |parts|
  {
    if |parts| == 1 then parts[0]
    else Join(parts[..|parts| - 1]) + [Sep] + parts[|parts| - 1]
  }

  /**
   * `s.split('/')`: the pieces between separators, left to right. Never
   * empty; an empty string gives one empty piece, and a trailing or doubled
   * separator gives an empty piece.
   */
  function Split(s: string): (parts: seq<string>)
    ensures |parts| >= 1
    ensures forall i :: 0 <= i < |parts| ==> Sep !in parts[i]
    decreases |s|
  {
    if s == [] then [[]]
    else
      var init := Split(s[..|s| - 1]);
      var c := s[|s| - 1];
      if c == Sep then
        init + [[]]
      else
        var last := init[|init| - 1];
        assert Sep !in last + [c];
        init[..|init| - 1] + [last + [c]]
  }

  /** The display label of an IRI: its last '/'-separated piece. */
  function Label(iri: string): (r: string)
    ensures Sep !in r
  {
    var parts := Split(iri);
    parts[|parts| - 1]
  }

  /** Appending a non-separator extends the last piece. */
  lemma SplitSnoc(s: string, c: char)
    requires c != Sep
    ensures var p := Split(s); Split(s + [c]) == p[..|p| - 1] + [p[|p| - 1] + [c]]
  {
    assert (s + [c])[..|s|] == s;
  }

  /** Appending a separator starts a new, empty piece. */
  lemma SplitSnocSep(s: string)
    ensures Split(s + [Sep]) == Split(s) + [[]]
  {
    assert (s + [Sep])[..|s|] == s;
  }

  /** Splitting after a final separator adds exactly the final piece. */
  lemma {:induction false} SplitAppend(a: string, b: string)
    requires Sep !in b
    ensures Split(a + [Sep] + b) == Split(a) + [b]
    decreases |b|
  {
    if b == [] {
      assert a + [Sep] + b == a + [Sep];
      SplitSnocSep(a);
    } else {
      var b' := b[..|b| - 1];
      var c := b[|b| - 1];
      assert c in b;
      assert a + [Sep] + b == (a + [Sep] + b') + [c];
      SplitAppend(a, b');
      SplitSnoc(a + [Sep] + b', c);
      assert b' + [c] == b;
    }
  }

  /** A string without separators is a single piece. */
  lemma {:induction false} SplitNoSep(s: string)
    requires Sep !in s
    ensures Split(s) == [s]
    decreases |s|
  {
    if s != [] {
      var s' := s[..|s| - 1];
      assert s[|s| - 1] in s;
      SplitNoSep(s');
      assert s' + [s[|s| - 1]] == s;
    }
  }

  /** Joining the pieces gives back the string. */
  lemma {:induction false} JoinSplit(s: string)
    ensures Join(Split(s)) == s
    decreases |s|
  {
    if s != [] {
      var init := s[..|s| - 1];
      var c := s[|s| - 1];
      assert s == init + [c];
      JoinSplit(init);
      if c == Sep {
        SplitSnocSep(init);
        var p := Split(init);
        assert (p + [[]])[..|p|] == p;
      } else {
        SplitSnoc(init, c);
        var p := Split(init);
        var q := Split(s);
        assert q[..|q| - 1] == p[..|p| - 1];
        if |p| > 1 {
          assert Join(p) == Join(p[..|p| - 1]) + [Sep] + p[|p| - 1];
        }
      }
    }
  }

  /** Split is the one way of cutting a string into separator-free pieces. */
  lemma {:induction false} SplitJoin(parts: seq<string>)
    requires |parts| >= 1
    requires forall i :: 0 <= i < |parts| ==> Sep !in parts[i]
    ensures Split(Join(parts)) == parts
    decreases |parts|
  {
    if |parts| == 1 {
      SplitNoSep(parts[0]);
    } else {
      var init := parts[..|parts| - 1];
      SplitJoin(init);
      SplitAppend(Join(init), parts[|parts| - 1]);
    }
  }

  /** The label of `a/b`, where b has no separator, is b. */
  lemma LabelAfterSep(a: string, b: string)
    requires Sep !in b
    ensures Label(a + [Sep] + b) == b
  {
    SplitAppend(a, b);
  }

  /** A string without separators is its own label. */
  lemma LabelNoSep(s: string)
    requires Sep !in s
    ensures Label(s) == s
  {
    SplitNoSep(s);
  }

  /**
   * The label is the longest separator-free suffix: it ends the IRI, and it
   * is either the whole IRI or preceded by a separator.
   */
  lemma {:induction false} LabelIsLastSegment(iri: string)
    ensures |Label(iri)| <= |iri|
    ensures Label(iri) == iri[|iri| - |Label(iri)|..]
    ensures |Label(iri)| < |iri| ==> iri[|iri| - |Label(iri)| - 1] == Sep
    decreases |iri|
  {
    if iri != [] {
      var init := iri[..|iri| - 1];
      var c := iri[|iri| - 1];
      assert iri == init + [c];
      if c == Sep {
        LabelAfterSep(init, []);
      } else {
        LabelIsLastSegment(init);
        var l := Label(init);
        assert Label(iri) == l + [c];
        assert iri[|iri| - |l| - 1..] == init[|init| - |l|..] + [c];
      }
    }
  }

  /** An IRI with a separator has a label strictly shorter than itself. */
  lemma LabelShorterWithSep(iri: string)
    requires Sep in iri
    ensures |Label(iri)| < |iri|
  {
    LabelIsLastSegment(iri);
  }

  /** IRI in namespace `ns` (ending in a separator) with local name `local`. */
  lemma LabelInNamespace(ns: string, local: string)
    requires |ns| >= 1 && ns[|ns| - 1] == Sep
    requires Sep !in local
    ensures Label(ns + local) == local
  {
    var base := ns[..|ns| - 1];
    assert ns + local == base + [Sep] + local;
    LabelAfterSep(base, local);
  }
}
