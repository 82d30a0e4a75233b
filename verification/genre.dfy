/**
 * The genre filter: a track passes when the filter text occurs, ignoring case,
 * inside at least one of the genres of the track's first artist.
 */
module GenreFilter {

  function LowerChar(c: char): (r: char)
    ensures 'A' <= c <= 'Z' ==> r as int == c as int + 32
    ensures !('A' <= c <= 'Z') ==> r == c
  {
    if 'A' <= c <= 'Z' then (c as int + 32) as char else c
  }

  /** `str.lower()`, restricted to ASCII letters. */
  function Lower(s: string): (r: string)
    ensures |r| == |s|
    ensures forall i :: 0 <= i < |s| ==> r[i] == LowerChar(s[i])
    ensures forall i :: 0 <= i < |r| ==> !('A' <= r[i] <= 'Z')
  {
    seq(|s|, i requires 0 <= i < |s| => LowerChar(s[i]))
  }

  /** `needle` occurs in `hay` starting at position `i`. */
  predicate OccursAt(hay: string, needle: string, i: int) {
    0 <= i && i + |needle| <= |hay| && hay[i..i + |needle|] == needle
  }

  /** Python's substring test `needle in hay`, scanning start positions left to right. */
  function Contains(hay: string, needle: string): bool
    decreases |hay|
  {
    if |needle| > |hay| then false
    else if needle <= hay then true
    else Contains(hay[1..], needle)
  }

  /** The scan finds `needle` exactly when it occurs somewhere in `hay`. */
  lemma {:induction false} ContainsIffOccurs(hay: string, needle: string)
    ensures Contains(hay, needle) <==> exists i :: OccursAt(hay, needle, i)
    decreases |hay|
  {
    if |needle| > |hay| {
    } else if needle <= hay {
      assert OccursAt(hay, needle, 0);
    } else {
      ContainsIffOccurs(hay[1..], needle);
      OccursShift(hay, needle);
    }
  }

  /** Past the first position, occurrences in `hay` are the occurrences in `hay[1..]`, shifted by one. */
  lemma OccursShift(hay: string, needle: string)
    requires |hay| > 0 && !(needle <= hay)
    ensures (exists i :: OccursAt(hay, needle, i)) <==> (exists j :: OccursAt(hay[1..], needle, j))
  {
    forall i | OccursAt(hay, needle, i)
      ensures OccursAt(hay[1..], needle, i - 1)
    {
      assert hay[1..][i - 1..i - 1 + |needle|] == hay[i..i + |needle|];
    }
    forall j | OccursAt(hay[1..], needle, j)
      ensures OccursAt(hay, needle, j + 1)
    {
      assert hay[1..][j..j + |needle|] == hay[j + 1..j + 1 + |needle|];
    }
  }

  /** `any(needle in g.lower() for g in genres)`, with `needle` already lower-cased. */
  function AnyGenreContains(genres: seq<string>, needle: string): bool {
    if genres == [] then false
    else Contains(Lower(genres[0]), needle) || AnyGenreContains(genres[1..], needle)
  }

  lemma {:induction false} AnyGenreContainsIffSome(genres: seq<string>, needle: string)
    ensures AnyGenreContains(genres, needle) <==> exists j :: 0 <= j < |genres| && Contains(Lower(genres[j]), needle)
  {
    if genres != [] {
      AnyGenreContainsIffSome(genres[1..], needle);
      assert forall j :: 1 <= j < |genres| ==> genres[j] == genres[1..][j - 1];
      if AnyGenreContains(genres[1..], needle) {
        var j :| 0 <= j < |genres[1..]| && Contains(Lower(genres[1..][j]), needle);
        assert Contains(Lower(genres[j + 1]), needle);
      }
    }
  }

  /**
   * The genre test of the aggregator. An empty filter (the form field left blank
   * or absent) lets every track through, including tracks with no genres.
   */
  function GenreMatches(filter: string, genres: seq<string>): bool {
    filter == "" || AnyGenreContains(genres, Lower(filter))
  }

  /** A non-empty filter keeps a track exactly when, ignoring case, it occurs inside one of its genres. */
  lemma GenreMatchesIffSomeGenreContains(filter: string, genres: seq<string>)
    ensures filter == "" ==> GenreMatches(filter, genres)
    ensures filter != "" ==>
      (GenreMatches(filter, genres) <==>
        exists j :: 0 <= j < |genres| && exists i :: OccursAt(Lower(genres[j]), Lower(filter), i))
  {
    AnyGenreContainsIffSome(genres, Lower(filter));
    forall j | 0 <= j < |genres|
      ensures Contains(Lower(genres[j]), Lower(filter)) <==> exists i :: OccursAt(Lower(genres[j]), Lower(filter), i)
    {
      ContainsIffOccurs(Lower(genres[j]), Lower(filter));
    }
  }

  /** A filter with no matching genre excludes the track: "rock" against jazz and blues. */
  lemma RockExcludesJazzAndBlues()
    ensures !GenreMatches("rock", ["jazz", "blues"])
  {
    assert Lower("jazz") == "jazz";
    assert Lower("blues") == "blues";
    assert Lower("rock") == "rock";
    assert !Contains("jazz", "rock") by {
      assert !("rock" <= "jazz") by { assert "jazz"[0] != "rock"[0]; }
      assert "jazz"[1..] == "azz";
    }
    assert !Contains("blues", "rock") by {
      assert !("rock" <= "blues") by { assert "blues"[0] != "rock"[0]; }
      assert "blues"[1..] == "lues";
      assert !("rock" <= "lues") by { assert "lues"[0] != "rock"[0]; }
      assert "lues"[1..] == "ues";
    }
    assert ["jazz", "blues"][1..] == ["blues"];
    assert !AnyGenreContains(["jazz", "blues"], "rock");
  }

  /** The match ignores case and may sit inside the genre: "rock" matches "Indie Rock". */
  lemma RockMatchesIndieRock()
    ensures GenreMatches("rock", ["Indie Rock"])
  {
    assert Lower("rock") == "rock";
    assert Lower("Indie Rock") == "indie rock";
    assert OccursAt("indie rock", "rock", 6);
    ContainsIffOccurs("indie rock", "rock");
    assert Contains(Lower(["Indie Rock"][0]), "rock");
  }
}
