/**
 * Subject identifiers derived from a surface file name (the opening lines of
 * process_single_file): strip the smoothing marker, read the hemisphere from
 * the suffix, and take the first two underscore-separated fields as the
 * participant and the session.
 */
module SubjectNaming {
  import opened Wrappers

  /** Marker left in the name by the earlier smoothing step. */
  const SmoothingMarker := "smooth_5_"
  const LeftSuffix := "left.surf.gii"
  const Underscore := '_'

  predicate MatchAt(s: string, pat: string, i: nat)
  {
    i + |pat| <= |s| && s[i..i + |pat|] == pat
  }

  /**
   * str.replace(pat, ""): scanning left to right, every non-overlapping
   * occurrence of `pat` is deleted, wherever it stands in the name.
   */
  function RemoveAll(s: string, pat: string): (r: string)
    requires |pat| > 0
    ensures |r| <= |s|
    decreases |s|
  {
    if |s| == 0 then ""
    else if pat <= s then RemoveAll(s[|pat|..], pat)
    else [s[0]] + RemoveAll(s[1..], pat)
  }

  /** A name without the marker is left as it is. */
  lemma {:induction false} RemoveAllNoMatch(s: string, pat: string)
    requires |pat| > 0
    requires forall i: nat :: !MatchAt(s, pat, i)
    ensures RemoveAll(s, pat) == s
  {
    if |s| > 0 {
      assert !MatchAt(s, pat, 0);
      forall i: nat ensures !MatchAt(s[1..], pat, i) {
        assert !MatchAt(s, pat, i + 1);
        if i + |pat| <= |s[1..]| { assert s[1..][i..i + |pat|] == s[i + 1..i + 1 + |pat|]; }
      }
      RemoveAllNoMatch(s[1..], pat);
    }
  }

  /**
   * An occurrence in the middle of the name is deleted just like one at the
   * front: if no occurrence starts inside `a`, then a + pat + b loses the
   * `pat` and the scan carries on in `b`.
   */
  lemma {:induction false} RemoveAllDeletesOccurrence(a: string, pat: string, b: string)
    requires |pat| > 0
    requires forall i: nat :: i < |a| ==> !MatchAt(a + pat + b, pat, i)
    ensures RemoveAll(a + pat + b, pat) == a + RemoveAll(b, pat)
  {
    var s := a + pat + b;
    if |a| == 0 {
      assert s == pat + b;
      assert pat <= s;
      assert s[|pat|..] == b;
    } else {
      assert !MatchAt(s, pat, 0);
      assert s[1..] == a[1..] + pat + b;
      forall i: nat | i < |a[1..]| ensures !MatchAt(a[1..] + pat + b, pat, i) {
        assert !MatchAt(s, pat, i + 1);
        if i + |pat| <= |s[1..]| { assert s[1..][i..i + |pat|] == s[i + 1..i + 1 + |pat|]; }
      }
      RemoveAllDeletesOccurrence(a[1..], pat, b);
      assert [s[0]] + (a[1..] + RemoveAll(b, pat)) == a + RemoveAll(b, pat);
    }
  }

  predicate EndsWith(s: string, suffix: string)
  {
    |suffix| <= |s| && s[|s| - |suffix|..] == suffix
  }

  /** 'left' iff the name ends in left.surf.gii; every other name is 'right'. */
  function Hemisphere(name: string): (h: string)
    ensures h == "left" <==> EndsWith(name, LeftSuffix)
    ensures h == "left" || h == "right"
  {
    if EndsWith(name, LeftSuffix) then "left" else "right"
  }

  /** str.split(sep): the maximal separator-free pieces, empty ones included. */
  function Split(s: string, sep: char): (fields: seq<string>)
    ensures |fields| >= 1
    ensures forall k :: 0 <= k < |fields| ==> sep !in fields[k]
  {
    if |s| == 0 then [""]
    else
      var rest := Split(s[1..], sep);
      if s[0] == sep then [""] + rest
      else [[s[0]] + rest[0]] + rest[1..]
  }

  /** sep.join(fields). */
  function Join(fields: seq<string>, sep: char): string
    requires |fields| >= 1
  {
    if |fields| == 1 then fields[0] else fields[0] + [sep] + Join(fields[1..], sep)
  }

  /** Joining the pieces of a split gives the string back. */
  lemma {:induction false} JoinSplit(s: string, sep: char)
    ensures Join(Split(s, sep), sep) == s
  {
    if |s| > 0 {
      JoinSplit(s[1..], sep);
      var rest := Split(s[1..], sep);
      if s[0] == sep {
        assert ([""] + rest)[1..] == rest;
      } else {
        var fields := [[s[0]] + rest[0]] + rest[1..];
        assert fields[1..] == rest[1..];
        if |rest| > 1 {
          assert Join(rest, sep) == rest[0] + [sep] + Join(rest[1..], sep);
        }
      }
    }
  }

  lemma {:induction false} SplitFieldThenSep(a: string, sep: char, t: string)
    requires sep !in a
    ensures Split(a + [sep] + t, sep) == [a] + Split(t, sep)
  {
    if |a| == 0 {
      assert (a + [sep] + t)[1..] == t;
    } else {
      assert (a + [sep] + t)[1..] == a[1..] + [sep] + t;
      SplitFieldThenSep(a[1..], sep, t);
      assert [a[0]] + a[1..] == a;
    }
  }

  lemma {:induction false} SplitFree(a: string, sep: char)
    requires sep !in a
    ensures Split(a, sep) == [a]
  {
    if |a| > 0 {
      SplitFree(a[1..], sep);
      assert [a[0]] + a[1..] == a;
    }
  }

  /** Splitting a join of separator-free fields gives the fields back. */
  lemma {:induction false} SplitJoin(fields: seq<string>, sep: char)
    requires |fields| >= 1
    requires forall k :: 0 <= k < |fields| ==> sep !in fields[k]
    ensures Split(Join(fields, sep), sep) == fields
  {
    if |fields| == 1 {
      SplitFree(fields[0], sep);
    } else {
      SplitJoin(fields[1..], sep);
      SplitFieldThenSep(fields[0], sep, Join(fields[1..], sep));
      assert [fields[0]] + fields[1..] == fields;
    }
  }

  /** The identifiers of one surface file. */
  datatype SubjectIds = SubjectIds(
    name: string,                   // the file name with the smoothing marker removed
    hemisphere: string,
    participantSession: string,     // participant_session, keyed by hemisphere
    baseParticipantSession: string) // the key into the covariate table

  /**
   * Identifier derivation. `filename.split('_')[1]` raises IndexError when
   * the name has no underscore.
   */
  function DeriveIds(filename: string): (r: Result<SubjectIds>)
    ensures var fields := Split(RemoveAll(filename, SmoothingMarker), Underscore);
      && (r.Failure? <==> |fields| < 2)
      && (r.Failure? ==> r.error == IndexError)
  {
    var name := RemoveAll(filename, SmoothingMarker);
    var fields := Split(name, Underscore);
    if |fields| < 2 then Failure(IndexError)
    else
      var hemisphere := Hemisphere(name);
      var base := fields[0] + "_" + fields[1];
      Success(SubjectIds(name, hemisphere, base + "_" + hemisphere, base))
  }

  /**
   * The identifiers read back: participant_session splits into the name's
   * first two fields and the hemisphere, and the base identifier into the
   * first two fields alone.
   */
  lemma IdsRoundTrip(filename: string)
    requires DeriveIds(filename).Success?
    ensures var ids := DeriveIds(filename).value;
      var fields := Split(ids.name, Underscore);
      && ids.name == RemoveAll(filename, SmoothingMarker)
      && Split(ids.participantSession, Underscore) == [fields[0], fields[1], ids.hemisphere]
      && Split(ids.baseParticipantSession, Underscore) == [fields[0], fields[1]]
      && ids.participantSession == ids.baseParticipantSession + "_" + ids.hemisphere
      && (ids.hemisphere == "left" <==> EndsWith(ids.name, LeftSuffix))
  {
    var ids := DeriveIds(filename).value;
    var fields := Split(ids.name, Underscore);
    var h := ids.hemisphere;
    assert Underscore !in h;
    assert [fields[0], fields[1]][1..] == [fields[1]];
    assert [fields[0], fields[1], h][1..] == [fields[1], h];
    assert [fields[1], h][1..] == [h];
    assert "_" == [Underscore];
    assert Join([fields[1], h], Underscore) == fields[1] + [Underscore] + h;
    assert ids.participantSession == fields[0] + [Underscore] + (fields[1] + [Underscore] + h);
    assert Join([fields[0], fields[1]], Underscore) == ids.baseParticipantSession;
    assert Join([fields[0], fields[1], h], Underscore) == ids.participantSession;
    SplitJoin([fields[0], fields[1]], Underscore);
    SplitJoin([fields[0], fields[1], h], Underscore);
  }
}
