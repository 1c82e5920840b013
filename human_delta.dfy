/**
 * The summary sentence the bot puts into every notification: how many "lik"
 * and "nom" links the graph gained or lost since the last observation.
 *
 * `get_human_delta` exists twice in the source with the same body
 * (mysterygraphbot.py and mystery_graph_bot/graph_notifier.py); it takes the
 * noms delta first but prints the liks clause first.
 *
 * Besides the formatter, this module gives a reader for the sentences it
 * produces and proves that the two are inverse: every pair of deltas gets its
 * own sentence, and every sentence the reader accepts is the one the
 * formatter would print for the deltas it reads.
 */
module HumanDelta {
  import opened Wrappers
  import opened Text

  function Abs(x: int): nat {
    if x < 0 then -x else x
  }

  /** "more" for a gain, "less" otherwise (zero never reaches a clause). */
  function Modifier(delta: int): string {
    if delta > 0 then "more" else "less"
  }

  /** Plural only when more than one link changed. */
  function Noun(delta: int, singular: string, plural: string): string {
    if Abs(delta) > 1 then plural else singular
  }

  /** `"{} {} {}".format(abs_delta, modifier, word)` */
  function Clause(delta: int, singular: string, plural: string): string {
    NatToString(Abs(delta)) + " " + Modifier(delta) + " " + Noun(delta, singular, plural)
  }

  const NoChanges: string := "no changes (?)"

  /** `get_human_delta(delta_noms, delta_liks)` */
  function GetHumanDelta(deltaNoms: int, deltaLiks: int): string {
    if deltaNoms == 0 && deltaLiks == 0 then NoChanges
    else if deltaNoms == 0 then Clause(deltaLiks, "lik", "liks")
    else if deltaLiks == 0 then Clause(deltaNoms, "nom", "noms")
    else Clause(deltaLiks, "lik", "liks") + " and " + Clause(deltaNoms, "nom", "noms")
  }

  /**
   * Reads one clause, given as its three words, back into a signed delta.
   * Only what the formatter prints is accepted: a canonical positive number,
   * "more" or "less", and the noun in the number the count calls for.
   */
  function ReadClause(ws: seq<string>, singular: string, plural: string): Option<int>
    requires |ws| == 3
  {
    if !IsCanonical(ws[0]) then None
    else
      var n: int := ParseNat(ws[0]);
      if n == 0 || ws[2] != (if n > 1 then plural else singular) then None
      else if ws[1] == "more" then Some(n)
      else if ws[1] == "less" then Some(-n)
      else None
  }

  /** Reads a summary sentence back into `(delta_noms, delta_liks)`. */
  function ReadHumanDelta(s: string): Option<(int, int)> {
    var ws := Split(s, ' ');
    if s == NoChanges then Some((0, 0))
    else if |ws| == 3 then
      match ReadClause(ws, "lik", "liks")
      case Some(l) => Some((0, l))
      case None =>
        match ReadClause(ws, "nom", "noms")
        case Some(n) => Some((n, 0))
        case None => None
    else if |ws| == 7 && ws[3] == "and" then
      match (ReadClause(ws[..3], "lik", "liks"), ReadClause(ws[4..], "nom", "noms"))
      case (Some(l), Some(n)) => Some((n, l))
      case _ => None
    else None
  }

  /** The words of a clause; none of them contains a space. */
  function ClauseWords(delta: int, singular: string, plural: string): seq<string> {
    [NatToString(Abs(delta)), Modifier(delta), Noun(delta, singular, plural)]
  }

  lemma ClauseIsJoin(delta: int, singular: string, plural: string)
    ensures Clause(delta, singular, plural) == Join(ClauseWords(delta, singular, plural), ' ')
  {
    var ws := ClauseWords(delta, singular, plural);
    assert ws[1..][1..] == [ws[2]];
    assert Join(ws[1..], ' ') == ws[1] + " " + ws[2];
    assert Join(ws, ' ') == ws[0] + " " + (ws[1] + " " + ws[2]);
  }

  /** A clause for a non-zero delta reads back as that delta. */
  lemma ReadClauseWords(delta: int, singular: string, plural: string)
    requires delta != 0 && singular != plural
    ensures ReadClause(ClauseWords(delta, singular, plural), singular, plural) == Some(delta)
  {
    NatToStringCanonical(Abs(delta));
    ParseNatOfNatToString(Abs(delta));
  }

  /** A clause with another noun does not read as this one. */
  lemma ReadClauseOtherNoun(delta: int, singular: string, plural: string, s2: string, p2: string)
    requires singular != s2 && singular != p2 && plural != s2 && plural != p2
    ensures ReadClause(ClauseWords(delta, singular, plural), s2, p2) == None
  {
  }

  lemma ClauseSplits(delta: int, singular: string, plural: string)
    requires ' ' !in singular && ' ' !in plural
    ensures Split(Clause(delta, singular, plural), ' ') == ClauseWords(delta, singular, plural)
  {
    var ws := ClauseWords(delta, singular, plural);
    ClauseIsJoin(delta, singular, plural);
    ClauseWordsSeparable(delta, singular, plural);
    SplitOfJoin(ws, ' ');
  }

  lemma DigitsHaveNoSpace(s: string)
    requires IsDigits(s)
    ensures ' ' !in s
  {
    forall i | 0 <= i < |s| ensures s[i] != ' ' {
      assert IsDigit(s[i]);
    }
  }

  /** No word of a clause contains a space. */
  lemma ClauseWordsSeparable(delta: int, singular: string, plural: string)
    requires ' ' !in singular && ' ' !in plural
    ensures Separable(ClauseWords(delta, singular, plural), ' ')
  {
    NatToStringCanonical(Abs(delta));
    DigitsHaveNoSpace(NatToString(Abs(delta)));
  }

  lemma ClauseIsNotNoChanges(delta: int, singular: string, plural: string)
    ensures Clause(delta, singular, plural) != NoChanges
    ensures forall t :: Clause(delta, singular, plural) + t != NoChanges
  {
    var c := Clause(delta, singular, plural);
    NatToStringCanonical(Abs(delta));
    assert c[0] == NatToString(Abs(delta))[0];
    forall t ensures c + t != NoChanges {
      assert (c + t)[0] == c[0];
    }
  }

  /** A sentence with only the liks clause reads back as (0, delta_liks). */
  lemma ReadLiksOnly(deltaLiks: int)
    requires deltaLiks != 0
    ensures ReadHumanDelta(Clause(deltaLiks, "lik", "liks")) == Some((0, deltaLiks))
  {
    ClauseIsNotNoChanges(deltaLiks, "lik", "liks");
    ClauseSplits(deltaLiks, "lik", "liks");
    ReadClauseWords(deltaLiks, "lik", "liks");
  }

  /** A sentence with only the noms clause reads back as (delta_noms, 0). */
  lemma ReadNomsOnly(deltaNoms: int)
    requires deltaNoms != 0
    ensures ReadHumanDelta(Clause(deltaNoms, "nom", "noms")) == Some((deltaNoms, 0))
  {
    ClauseIsNotNoChanges(deltaNoms, "nom", "noms");
    ClauseSplits(deltaNoms, "nom", "noms");
    ReadClauseOtherNoun(deltaNoms, "nom", "noms", "lik", "liks");
    ReadClauseWords(deltaNoms, "nom", "noms");
  }

  /** The words of the two-clause sentence: liks clause, "and", noms clause. */
  lemma BothClausesSplit(deltaNoms: int, deltaLiks: int)
    ensures Split(Clause(deltaLiks, "lik", "liks") + " and " + Clause(deltaNoms, "nom", "noms"), ' ')
         == ClauseWords(deltaLiks, "lik", "liks") + ["and"] + ClauseWords(deltaNoms, "nom", "noms")
  {
    var lw := ClauseWords(deltaLiks, "lik", "liks");
    var nw := ClauseWords(deltaNoms, "nom", "noms");
    ClauseIsJoin(deltaLiks, "lik", "liks");
    ClauseIsJoin(deltaNoms, "nom", "noms");
    JoinAround(lw, "and", nw, ' ');
    var cl, cn := Join(lw, ' '), Join(nw, ' ');
    assert cl + [' '] + "and" + [' '] + cn == cl + " and " + cn;
    ClauseWordsSeparable(deltaLiks, "lik", "liks");
    ClauseWordsSeparable(deltaNoms, "nom", "noms");
    SeparableAround(lw, "and", nw, ' ');
    SplitOfJoin(lw + ["and"] + nw, ' ');
  }

  /** A two-clause sentence reads back as both deltas. */
  lemma ReadBoth(deltaNoms: int, deltaLiks: int)
    requires deltaNoms != 0 && deltaLiks != 0
    ensures ReadHumanDelta(Clause(deltaLiks, "lik", "liks") + " and " + Clause(deltaNoms, "nom", "noms"))
         == Some((deltaNoms, deltaLiks))
  {
    var lw := ClauseWords(deltaLiks, "lik", "liks");
    var nw := ClauseWords(deltaNoms, "nom", "noms");
    ClauseIsNotNoChanges(deltaLiks, "lik", "liks");
    BothClausesSplit(deltaNoms, deltaLiks);
    var ws := lw + ["and"] + nw;
    assert ws[..3] == lw && ws[4..] == nw && ws[3] == "and";
    ReadClauseWords(deltaLiks, "lik", "liks");
    ReadClauseWords(deltaNoms, "nom", "noms");
  }

  /** Every pair of deltas is printed as a sentence that reads back as that pair. */
  lemma HumanDeltaRoundTrip(deltaNoms: int, deltaLiks: int)
    ensures ReadHumanDelta(GetHumanDelta(deltaNoms, deltaLiks)) == Some((deltaNoms, deltaLiks))
  {
    if deltaNoms == 0 && deltaLiks == 0 {
    } else if deltaNoms == 0 {
      ReadLiksOnly(deltaLiks);
    } else if deltaLiks == 0 {
      ReadNomsOnly(deltaNoms);
    } else {
      ReadBoth(deltaNoms, deltaLiks);
    }
  }

  /** A clause the reader accepts is exactly the clause printed for what it read. */
  lemma ReadClauseCanonical(ws: seq<string>, singular: string, plural: string, delta: int)
    requires |ws| == 3 && ReadClause(ws, singular, plural) == Some(delta)
    ensures delta != 0
    ensures ClauseWords(delta, singular, plural) == ws
  {
    NatToStringOfParseNat(ws[0]);
  }

  /** A one-clause sentence the reader accepts is the clause printed for what it read. */
  lemma OneClauseCanonical(s: string, singular: string, plural: string, delta: int)
    requires |Split(s, ' ')| == 3 && ReadClause(Split(s, ' '), singular, plural) == Some(delta)
    ensures delta != 0 && Clause(delta, singular, plural) == s
  {
    JoinOfSplit(s, ' ');
    ReadClauseCanonical(Split(s, ' '), singular, plural, delta);
    ClauseIsJoin(delta, singular, plural);
  }

  /** A two-clause sentence the reader accepts is the pair of clauses printed for what it read. */
  lemma TwoClausesCanonical(s: string, deltaNoms: int, deltaLiks: int)
    requires var ws := Split(s, ' ');
      && |ws| == 7 && ws[3] == "and"
      && ReadClause(ws[..3], "lik", "liks") == Some(deltaLiks)
      && ReadClause(ws[4..], "nom", "noms") == Some(deltaNoms)
    ensures deltaNoms != 0 && deltaLiks != 0
    ensures Clause(deltaLiks, "lik", "liks") + " and " + Clause(deltaNoms, "nom", "noms") == s
  {
    var ws := Split(s, ' ');
    var lw, nw := ws[..3], ws[4..];
    ReadClauseCanonical(lw, "lik", "liks", deltaLiks);
    ReadClauseCanonical(nw, "nom", "noms", deltaNoms);
    ClauseIsJoin(deltaLiks, "lik", "liks");
    ClauseIsJoin(deltaNoms, "nom", "noms");
    assert ws == lw + ["and"] + nw;
    JoinAround(lw, "and", nw, ' ');
    var cl, cn := Join(lw, ' '), Join(nw, ' ');
    assert cl + [' '] + "and" + [' '] + cn == cl + " and " + cn;
    JoinOfSplit(s, ' ');
  }

  /** Every sentence the reader accepts is the one printed for the deltas it reads. */
  lemma ReadHumanDeltaCanonical(s: string, deltaNoms: int, deltaLiks: int)
    requires ReadHumanDelta(s) == Some((deltaNoms, deltaLiks))
    ensures GetHumanDelta(deltaNoms, deltaLiks) == s
  {
    var ws := Split(s, ' ');
    if s == NoChanges {
    } else if |ws| == 3 {
      if ReadClause(ws, "lik", "liks").Some? {
        OneClauseCanonical(s, "lik", "liks", deltaLiks);
      } else {
        OneClauseCanonical(s, "nom", "noms", deltaNoms);
      }
    } else {
      TwoClausesCanonical(s, deltaNoms, deltaLiks);
    }
  }

  /** The summary is "no changes (?)" exactly when neither count moved. */
  lemma HumanDeltaNoChanges(deltaNoms: int, deltaLiks: int)
    ensures GetHumanDelta(deltaNoms, deltaLiks) == NoChanges <==> deltaNoms == 0 && deltaLiks == 0
  {
    if deltaNoms != 0 || deltaLiks != 0 {
      HumanDeltaRoundTrip(deltaNoms, deltaLiks);
    }
  }

  /**
   * The word-level shape of every sentence with a change: the liks clause
   * (when liks moved) comes first, then "and", then the noms clause (when
   * noms moved); each clause is the count, "more" exactly for a gain, and the
   * noun in the singular exactly when one link changed.
   */
  lemma HumanDeltaWords(deltaNoms: int, deltaLiks: int)
    requires deltaNoms != 0 || deltaLiks != 0
    ensures var ws := Split(GetHumanDelta(deltaNoms, deltaLiks), ' ');
      && (deltaNoms == 0 ==> ws == ClauseWords(deltaLiks, "lik", "liks"))
      && (deltaLiks == 0 ==> ws == ClauseWords(deltaNoms, "nom", "noms"))
      && (deltaNoms != 0 && deltaLiks != 0 ==>
            ws == ClauseWords(deltaLiks, "lik", "liks") + ["and"] + ClauseWords(deltaNoms, "nom", "noms"))
  {
    if deltaNoms == 0 {
      ClauseSplits(deltaLiks, "lik", "liks");
    } else if deltaLiks == 0 {
      ClauseSplits(deltaNoms, "nom", "noms");
    } else {
      BothClausesSplit(deltaNoms, deltaLiks);
    }
  }
}

/** The exact sentences the two test suites expect from `get_human_delta`. */
module HumanDeltaExamples {
  import opened HumanDelta

  /** The sentences the test suites pin down, both counts gained. */
  lemma HumanDeltaExamplesGain()
    ensures GetHumanDelta(5, 5) == "5 more liks and 5 more noms"
  {
    assert Clause(5, "lik", "liks") == "5 more liks";
    assert Clause(5, "nom", "noms") == "5 more noms";
  }

  /** The sentences the test suites pin down, both counts lost. */
  lemma HumanDeltaExamplesLoss()
    ensures GetHumanDelta(-5, -5) == "5 less liks and 5 less noms"
  {
    assert Clause(-5, "lik", "liks") == "5 less liks";
    assert Clause(-5, "nom", "noms") == "5 less noms";
  }

  /** The sentences the test suites pin down, only liks moved or nothing did. */
  lemma HumanDeltaExamplesLiks()
    ensures GetHumanDelta(0, -5) == "5 less liks"
    ensures GetHumanDelta(0, 2) == "2 more liks"
    ensures GetHumanDelta(0, 1) == "1 more lik"
    ensures GetHumanDelta(0, 0) == "no changes (?)"
  {
    assert Clause(-5, "lik", "liks") == "5 less liks";
    assert Clause(2, "lik", "liks") == "2 more liks";
    assert Clause(1, "lik", "liks") == "1 more lik";
  }

  /** The sentences the test suites pin down, only noms moved. */
  lemma HumanDeltaExamplesNom()
    ensures GetHumanDelta(1, 0) == "1 more nom"
  {
    assert Clause(1, "nom", "noms") == "1 more nom";
  }

  /** The sentences the test suites pin down, several noms moved. */
  lemma HumanDeltaExamplesNoms()
    ensures GetHumanDelta(2, 0) == "2 more noms"
    ensures GetHumanDelta(-4, 0) == "4 less noms"
  {
    assert Clause(2, "nom", "noms") == "2 more noms";
    assert Clause(-4, "nom", "noms") == "4 less noms";
  }
}
