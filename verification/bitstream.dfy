/**
 * The version of the bitstream loaded in a sensor (sensor/bitstream.py):
 * major and minor always, a build and a variant when the chip has them,
 * written as decimal numbers separated by dots.
 */
module Bitstream {
  import opened Wrappers
  import opened Text

  datatype BitstreamVersion = BitstreamVersion(major: int, minor: int, build: Option<int>, variant: Option<int>)

  /** The optional parts that are present, build first. */
  function Extras(v: BitstreamVersion): (xs: seq<int>)
    ensures |xs| == (if v.build.Some? then 1 else 0) + (if v.variant.Some? then 1 else 0)
  {
    (if v.build.Some? then [v.build.value] else []) + (if v.variant.Some? then [v.variant.value] else [])
  }

  /** `str(version)`: "major.minor", then ".build" and ".variant" for those present. */
  function VersionString(v: BitstreamVersion): (s: string)
    ensures |s| >= |IntToString(v.major)| + 1 + |IntToString(v.minor)|
    ensures s[..|IntToString(v.major)| + 1 + |IntToString(v.minor)|]
         == IntToString(v.major) + "." + IntToString(v.minor)
  {
    var s := IntToString(v.major) + "." + IntToString(v.minor);
    var s := if v.build.Some? then s + "." + IntToString(v.build.value) else s;
    var t := if v.variant.Some? then s + "." + IntToString(v.variant.value) else s;
    assert t[..|IntToString(v.major)| + 1 + |IntToString(v.minor)|] == IntToString(v.major) + "." + IntToString(v.minor);
    t
  }

  /** The decimal texts of numbers, one field each. */
  function Fields(ns: seq<int>): (fs: seq<string>)
    ensures |fs| == |ns|
    ensures forall i :: 0 <= i < |ns| ==> fs[i] == IntToString(ns[i])
    decreases |ns|
  {
    if ns == [] then [] else [IntToString(ns[0])] + Fields(ns[1..])
  }

  lemma {:induction false} NoDotInNumber(n: int)
    ensures '.' !in IntToString(n)
  {
  }

  /** A field, a dot, then more fields. */
  lemma {:induction false} SplitOneMore(n: int, rest: string)
    ensures Split(IntToString(n) + "." + rest, '.') == [IntToString(n)] + Split(rest, '.')
  {
    NoDotInNumber(n);
    assert IntToString(n) + "." + rest == IntToString(n) + ['.'] + rest;
    SplitField(IntToString(n), rest, '.');
  }

  /** The text of numbers joined by dots, built from the front. */
  function Dotted(ns: seq<int>): string
    requires ns != []
  {
    if |ns| == 1 then IntToString(ns[0]) else IntToString(ns[0]) + "." + Dotted(ns[1..])
  }

  lemma {:induction false} SplitDotted(ns: seq<int>)
    requires ns != []
    ensures Split(Dotted(ns), '.') == Fields(ns)
    decreases |ns|
  {
    if |ns| == 1 {
      NoDotInNumber(ns[0]);
      SplitNone(IntToString(ns[0]), '.');
    } else {
      SplitDotted(ns[1..]);
      SplitOneMore(ns[0], Dotted(ns[1..]));
    }
  }

  /** Appending ".n" to a dotted text appends n to its numbers. */
  lemma {:induction false} DottedSnoc(ns: seq<int>, n: int)
    requires ns != []
    ensures Dotted(ns) + "." + IntToString(n) == Dotted(ns + [n])
    decreases |ns|
  {
    if |ns| > 1 {
      DottedSnoc(ns[1..], n);
      assert (ns + [n])[1..] == ns[1..] + [n];
    }
  }

  /** The version text is its numbers joined by dots. */
  lemma {:induction false} VersionIsDotted(v: BitstreamVersion)
    ensures VersionString(v) == Dotted([v.major, v.minor] + Extras(v))
  {
    var base := [v.major, v.minor];
    assert Dotted(base) == IntToString(v.major) + "." + IntToString(v.minor) by {
      assert base[1..] == [v.minor];
    }
    if v.build.Some? {
      DottedSnoc(base, v.build.value);
      if v.variant.Some? {
        DottedSnoc(base + [v.build.value], v.variant.value);
        assert base + [v.build.value] + [v.variant.value] == base + Extras(v);
      } else {
        assert base + [v.build.value] == base + Extras(v);
      }
    } else if v.variant.Some? {
      DottedSnoc(base, v.variant.value);
      assert base + [v.variant.value] == base + Extras(v);
    } else {
      assert base == base + Extras(v);
    }
  }

  /**
   * Split on dots, the text gives back major, minor, then the build and
   * the variant that are present, in that order: two fields, plus one per
   * present part.
   */
  lemma {:induction false} VersionFields(v: BitstreamVersion)
    ensures Split(VersionString(v), '.') == Fields([v.major, v.minor] + Extras(v))
    ensures |Split(VersionString(v), '.')| == 2 + |Extras(v)|
  {
    VersionIsDotted(v);
    SplitDotted([v.major, v.minor] + Extras(v));
  }

  /**
   * The text determines major, minor and the list of present parts, but
   * not which of build and variant a lone third number was.
   */
  lemma {:induction false} VersionStringDetermines(v: BitstreamVersion, w: BitstreamVersion)
    requires VersionString(v) == VersionString(w)
    ensures v.major == w.major && v.minor == w.minor && Extras(v) == Extras(w)
  {
    VersionFields(v);
    VersionFields(w);
    var a := [v.major, v.minor] + Extras(v);
    var b := [w.major, w.minor] + Extras(w);
    assert |a| == |b|;
    forall i | 0 <= i < |a| ensures a[i] == b[i] {
      assert Fields(a)[i] == Fields(b)[i];
      IntToStringInjective(a[i], b[i]);
    }
    assert a == b;
    assert Extras(v) == a[2..] && Extras(w) == b[2..];
  }

  /** A variant without a build prints exactly like that number as a build without a variant. */
  lemma {:induction false} VariantPrintsLikeBuild(major: int, minor: int, n: int)
    ensures VersionString(BitstreamVersion(major, minor, None, Some(n)))
         == VersionString(BitstreamVersion(major, minor, Some(n), None))
  {
  }
}
