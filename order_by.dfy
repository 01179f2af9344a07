/**
  The order compiler shared by both repositories (`applyOrderBy` in
  sports/db/sports.go and racing/db/races.go): the requested column is
  checked against a per-kind allow-list, and the direction is kept only when
  it upper-cases to exactly ASC or DESC. Anything else degrades silently to
  the query it was given.
*/
module OrderBy {
  import opened Wrappers

  /** An order request: a column name and an optional direction. */
  datatype Order = Order(parameter: string, direction: Option<string>)

  /**
    One character through Go's strings.ToUpper, for the characters whose
    upper case is an ASCII letter: `a`..`z`, U+0131 (dotless i), whose upper
    case is `I`, and U+017F (long s), whose upper case is `S`. Every other
    character is kept; since the direction is
    only ever compared with ASC and DESC, this agrees with Go on every
    comparison the compiler makes.
  */
  function UpperChar(c: char): char
  {
    if 'a' <= c <= 'z' then (c as int - 32) as char
    else if c == 'ı' then 'I'
    else if c == 'ſ' then 'S'
    else c
  }

  /** Go's strings.ToUpper, character by character. */
  function Upper(s: string): (r: string)
    ensures |r| == |s|
  {
    seq(|s|, i requires 0 <= i < |s| => UpperChar(s[i]))
  }

  /** Text appended after the column: " ASC", " DESC" or nothing. */
  function DirectionSuffix(direction: Option<string>): string
  {
    if direction.None? then ""
    else
      var d := Upper(direction.value);
      if d == "ASC" then " ASC" else if d == "DESC" then " DESC" else ""
  }

  /** Compiles an optional order request against the allow-list `columns`. */
  function ApplyOrderBy(columns: seq<string>, query: string, orderBy: Option<Order>): (r: string)
    ensures orderBy.None? || orderBy.value.parameter !in columns ==> r == query
    ensures orderBy.Some? && orderBy.value.parameter in columns ==>
      r == query + " ORDER BY " + orderBy.value.parameter + DirectionSuffix(orderBy.value.direction)
  {
    if orderBy.None? then query
    else if orderBy.value.parameter !in columns then query
    else query + " ORDER BY " + orderBy.value.parameter + DirectionSuffix(orderBy.value.direction)
  }

  /** `c` is an upper-case ASCII letter. */
  predicate UpperLetter(c: char)
  {
    'A' <= c <= 'Z'
  }

  /** The characters strings.ToUpper maps onto the upper-case letter `c`. */
  function Spellings(c: char): set<char>
    requires UpperLetter(c)
  {
    {c, (c as int + 32) as char} + (if c == 'I' then {'ı'} else {}) + (if c == 'S' then {'ſ'} else {})
  }

  /** `d` spells `word` in any mixture of cases. */
  predicate SpelledAs(d: string, word: string)
    requires forall i :: 0 <= i < |word| ==> UpperLetter(word[i])
  {
    |d| == |word| && forall i :: 0 <= i < |d| ==> d[i] in Spellings(word[i])
  }

  lemma UpperCharOnto(c: char, l: char)
    requires UpperLetter(l)
    ensures UpperChar(c) == l <==> c in Spellings(l)
  {
  }

  /** Upper-casing gives an upper-case word exactly for its case variants. */
  lemma {:induction false} UpperIsWord(d: string, word: string)
    requires forall i :: 0 <= i < |word| ==> UpperLetter(word[i])
    ensures Upper(d) == word <==> SpelledAs(d, word)
  {
    if Upper(d) == word {
      forall i | 0 <= i < |d| ensures d[i] in Spellings(word[i]) {
        assert Upper(d)[i] == UpperChar(d[i]);
        UpperCharOnto(d[i], word[i]);
      }
    }
    if SpelledAs(d, word) {
      forall i | 0 <= i < |d| ensures Upper(d)[i] == word[i] {
        UpperCharOnto(d[i], word[i]);
      }
    }
  }

  /**
    The direction suffix is " ASC" exactly for the case variants of ASC,
    " DESC" exactly for those of DESC, and empty for an absent or any other
    direction.
  */
  lemma DirectionSuffixCases(direction: Option<string>)
    ensures DirectionSuffix(direction) == " ASC" <==> direction.Some? && SpelledAs(direction.value, "ASC")
    ensures DirectionSuffix(direction) == " DESC" <==> direction.Some? && SpelledAs(direction.value, "DESC")
    ensures DirectionSuffix(direction) == "" <==>
      direction.None? || (!SpelledAs(direction.value, "ASC") && !SpelledAs(direction.value, "DESC"))
  {
    if direction.Some? {
      UpperIsWord(direction.value, "ASC");
      UpperIsWord(direction.value, "DESC");
    }
  }

  /**
    Allow-list rule: the compiled query is either the given one, or the given
    one followed by " ORDER BY ", a column of the allow-list and one of the
    three suffixes. No other caller text reaches the SQL.
  */
  lemma OrderByOnlyAllowedText(columns: seq<string>, query: string, orderBy: Option<Order>)
    ensures var r := ApplyOrderBy(columns, query, orderBy);
      r == query ||
      exists c, suffix :: c in columns && suffix in {"", " ASC", " DESC"} && r == query + " ORDER BY " + c + suffix
  {
    if orderBy.Some? && orderBy.value.parameter in columns {
      var suffix := DirectionSuffix(orderBy.value.direction);
      assert suffix in {"", " ASC", " DESC"};
    }
  }
}
