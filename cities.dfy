/**
 * City names: the cities of a state read from the US cities table
 * (`get_cities_name`), and their display form (`capitalize_city_name`).
 */
module Cities {
  import opened Outcomes
  import opened Text

  // ---------------------------------------------------------------------
  // get_cities_name
  // ---------------------------------------------------------------------

  /** Every data row has a third cell, the state code. */
  predicate HasStateCells(rows: seq<seq<string>>)
  {
    forall i :: 0 <= i < |rows| ==> |rows[i]| >= 3
  }

  /** The lower-cased first cells of the rows whose third cell is `state`, in table order. */
  function Matching(rows: seq<seq<string>>, state: string): seq<string>
    requires HasStateCells(rows)
    decreases |rows|
  {
    if rows == [] then []
    else
      var init := rows[..|rows| - 1];
      assert forall i :: 0 <= i < |init| ==> init[i] == rows[i];
      var row := rows[|rows| - 1];
      Matching(init, state) + if row[2] == state then [Lower(row[0])] else []
  }

  /**
   * `get_cities_name(state)` over the rows of the table, header first. An
   * empty file has no header to skip (StopIteration); a data row without a
   * third cell raises IndexError; otherwise the lower-cased names of the
   * cities of `state`.
   */
  method GetCitiesName(rows: seq<seq<string>>, state: string) returns (r: Result<seq<string>>)
    ensures rows == [] ==> r == Err(StopIteration)
    ensures rows != [] && !HasStateCells(rows[1..]) ==> r == Err(IndexError)
    ensures rows != [] && HasStateCells(rows[1..]) ==> r == Ok(Matching(rows[1..], state))
  {
    if rows == [] {
      return Err(StopIteration);
    }
    var data := rows[1..];
    var cities: seq<string> := [];
    for i := 0 to |data|
      invariant HasStateCells(data[..i])
      invariant cities == Matching(data[..i], state)
    {
      assert data[..i + 1][..i] == data[..i];
      if |data[i]| < 3 {
        return Err(IndexError);
      }
      if data[i][2] == state {
        cities := cities + [Lower(data[i][0])];
      }
    }
    assert data[..|data|] == data;
    r := Ok(cities);
  }

  /** A name is listed exactly when some row of the state carries it (lower-cased). */
  lemma {:induction false} MatchingMembers(rows: seq<seq<string>>, state: string, name: string)
    requires HasStateCells(rows)
    ensures name in Matching(rows, state)
            <==> exists i :: 0 <= i < |rows| && rows[i][2] == state && name == Lower(rows[i][0])
    decreases |rows|
  {
    if rows != [] {
      var init := rows[..|rows| - 1];
      MatchingMembers(init, state, name);
      if exists i :: 0 <= i < |rows| && rows[i][2] == state && name == Lower(rows[i][0]) {
        var i :| 0 <= i < |rows| && rows[i][2] == state && name == Lower(rows[i][0]);
        if i < |init| {
          assert init[i] == rows[i];
        }
      }
      if name in Matching(init, state) {
        var i :| 0 <= i < |init| && init[i][2] == state && name == Lower(init[i][0]);
        assert rows[i] == init[i];
      }
    }
  }

  /** Every listed name is already lower case. */
  lemma {:induction false} MatchingLowerCase(rows: seq<seq<string>>, state: string)
    requires HasStateCells(rows)
    ensures forall name :: name in Matching(rows, state) ==> Lower(name) == name
    decreases |rows|
  {
    if rows != [] {
      var init := rows[..|rows| - 1];
      MatchingLowerCase(init, state);
      LowerLower(rows[|rows| - 1][0]);
    }
  }

  // ---------------------------------------------------------------------
  // capitalize_city_name
  // ---------------------------------------------------------------------

  /** The display form of a city name: each space-separated word capitalized, joined back with single spaces. */
  function Capitalized(city: string): string
  {
    Join(" ", Apply(Capitalize, Split(city, " ")))
  }

  /**
   * `capitalize_city_name(city)`: a name of several words is rebuilt word by
   * word, a space after every word but the last; a single word is capitalized
   * as a whole.
   */
  method CapitalizeCityName(city: string) returns (r: string)
    ensures r == Capitalized(city)
  {
    var words := Split(city, " ");
    ghost var caps := Apply(Capitalize, words);
    if |words| > 1 {
      r := "";
      for i := 0 to |words|
        invariant i == 0 ==> r == ""
        invariant 0 < i < |words| ==> r == Join(" ", caps[..i]) + " "
        invariant i == |words| ==> r == Join(" ", caps)
      {
        assert caps[..i + 1] == caps[..i] + [caps[i]];
        if i > 0 {
          JoinSnoc(" ", caps[..i], caps[i]);
        }
        if i + 1 < |words| {
          r := r + Capitalize(words[i]) + " ";
        } else {
          r := r + Capitalize(words[i]);
          assert caps[..i + 1] == caps;
        }
      }
    } else {
      assert words == [city] by {
        JoinSplit(city, " ");
      }
      r := Capitalize(city);
    }
  }

  /** Capitalizing a word adds no space to it. */
  lemma {:induction false} CapitalizeNoSpace(w: string)
    requires ' ' !in w
    ensures ' ' !in Capitalize(w)
  {
    CapitalizeShape(w);
  }

  /** The display form splits into the capitalized words of the name. */
  lemma CapitalizedWords(city: string)
    ensures Split(Capitalized(city), " ") == Apply(Capitalize, Split(city, " "))
  {
    var words := Split(city, " ");
    var caps := Apply(Capitalize, words);
    SplitPiecesLackSeparator(city, ' ');
    forall p | p in caps ensures ' ' !in p {
      var i :| 0 <= i < |caps| && caps[i] == p;
      assert words[i] in words;
      CapitalizeNoSpace(words[i]);
    }
    SplitJoin(caps, " ");
  }

  /** A name already in display form stays as it is. */
  lemma CapitalizedIdempotent(city: string)
    ensures Capitalized(Capitalized(city)) == Capitalized(city)
  {
    var caps := Apply(Capitalize, Split(city, " "));
    CapitalizedWords(city);
    forall i | 0 <= i < |caps| ensures Capitalize(caps[i]) == caps[i] {
      CapitalizeShape(Split(city, " ")[i]);
    }
    assert Apply(Capitalize, caps) == caps;
  }

  /** Joining pieces of the same lengths gives texts of the same length. */
  lemma {:induction false} JoinSameLength(sep: string, ps: seq<string>, qs: seq<string>)
    requires |ps| == |qs| && forall i :: 0 <= i < |ps| ==> |ps[i]| == |qs[i]|
    ensures |Join(sep, ps)| == |Join(sep, qs)|
    decreases |ps|
  {
    if |ps| > 1 {
      JoinSameLength(sep, ps[1..], qs[1..]);
    }
  }

  /** The display form is as long as the name: only letter cases change. */
  lemma CapitalizedLength(city: string)
    ensures |Capitalized(city)| == |city|
  {
    var words := Split(city, " ");
    forall i | 0 <= i < |words| ensures |Apply(Capitalize, words)[i]| == |words[i]| {
      CapitalizeShape(words[i]);
    }
    JoinSameLength(" ", Apply(Capitalize, words), words);
    JoinSplit(city, " ");
  }
}
