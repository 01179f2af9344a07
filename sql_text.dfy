/**
  SQL text as the compilers build it, and a reference view of it.

  The compilers build plain strings in which every bound value is a `?`
  placeholder, and a separate, ordered argument list. The reference view
  describes the same fragment as a list of pieces, each either literal text
  or a placeholder together with the argument meant for it. `Bind` is how the
  database driver reads text and arguments: left to right, each `?` takes the
  next argument. The central fact of this module, `BindRender`, says that
  rendering a clean piece list and binding its arguments back gives every
  placeholder exactly the argument its piece carried.
*/
module SqlText {
  import opened Wrappers

  /** A bind argument: the compilers pass strings (events) or 64-bit ids (races). */
  datatype Arg = Text(s: string) | Int(i: int)

  /** Literal SQL text, or a placeholder carrying the argument meant for it. */
  datatype Piece = Lit(text: string) | Param(arg: Arg)

  /** Number of `?` placeholders in `s`. */
  function Placeholders(s: string): nat
  {
    if s == [] then 0 else (if s[0] == '?' then 1 else 0) + Placeholders(s[1..])
  }

  lemma {:induction false} PlaceholdersAppend(a: string, b: string)
    ensures Placeholders(a + b) == Placeholders(a) + Placeholders(b)
  {
    if a == [] {
      assert a + b == b;
    } else {
      assert (a + b)[1..] == a[1..] + b;
      PlaceholdersAppend(a[1..], b);
    }
  }

  lemma {:induction false} NoPlaceholders(s: string)
    requires '?' !in s
    ensures Placeholders(s) == 0
  {
    if s != [] {
      assert s[0] in s;
      assert '?' !in s[1..] by {
        forall i | 0 <= i < |s[1..]| ensures s[1..][i] != '?' {
          assert s[1..][i] == s[i + 1] && s[i + 1] in s;
        }
      }
      NoPlaceholders(s[1..]);
    }
  }

  /** Text of one piece as sent to the engine. */
  function RenderPiece(p: Piece): string
  {
    match p
    case Lit(t) => t
    case Param(_) => "?"
  }

  /** Arguments one piece contributes. */
  function PieceParams(p: Piece): seq<Arg>
  {
    match p
    case Lit(_) => []
    case Param(a) => [a]
  }

  /** Text of a fragment as sent to the engine: every placeholder becomes `?`. */
  function Render(ps: seq<Piece>): string
  {
    if ps == [] then [] else RenderPiece(ps[0]) + Render(ps[1..])
  }

  /** The arguments of a fragment, in placeholder order. */
  function Params(ps: seq<Piece>): seq<Arg>
  {
    if ps == [] then [] else PieceParams(ps[0]) + Params(ps[1..])
  }

  /** No literal text of the fragment contains a `?`. */
  predicate Clean(ps: seq<Piece>)
  {
    forall i :: 0 <= i < |ps| ==> ps[i].Lit? ==> '?' !in ps[i].text
  }

  /** One `Lit` per character of `t`. */
  function Chars(t: string): (r: seq<Piece>)
    ensures |r| == |t|
  {
    seq(|t|, i requires 0 <= i < |t| => Lit([t[i]]))
  }

  /** Character-level form of a fragment: literal text split into single characters. */
  function Expand(ps: seq<Piece>): seq<Piece>
  {
    if ps == [] then []
    else (match ps[0] case Lit(t) => Chars(t) case Param(a) => [Param(a)]) + Expand(ps[1..])
  }

  /** `ps` in front of a present result; absent stays absent. */
  function Prepend(ps: seq<Piece>, r: Option<seq<Piece>>): Option<seq<Piece>>
  {
    if r.Some? then Some(ps + r.value) else None
  }

  /**
    How the driver pairs statement text with arguments: scanning left to
    right, each `?` takes the next argument. The result is character-level;
    it is absent when the number of placeholders and arguments differ, which
    the driver reports as an error.
  */
  function Bind(s: string, args: seq<Arg>): (r: Option<seq<Piece>>)
    ensures r.Some? <==> Placeholders(s) == |args|
    ensures r.Some? ==> Render(r.value) == s && Params(r.value) == args
  {
    if s == [] then
      (if args == [] then Some([]) else None)
    else if s[0] == '?' then
      if args == [] then None
      else
        var rest := Bind(s[1..], args[1..]);
        assert rest.Some? ==> ([Param(args[0])] + rest.value)[1..] == rest.value;
        assert args == [args[0]] + args[1..];
        assert s == "?" + s[1..];
        Prepend([Param(args[0])], rest)
    else
      var rest := Bind(s[1..], args);
      assert rest.Some? ==> ([Lit([s[0]])] + rest.value)[1..] == rest.value;
      assert s == [s[0]] + s[1..];
      Prepend([Lit([s[0]])], rest)
  }

  lemma {:induction false} RenderAppend(a: seq<Piece>, b: seq<Piece>)
    ensures Render(a + b) == Render(a) + Render(b)
    ensures Params(a + b) == Params(a) + Params(b)
  {
    RenderAppendText(a, b);
    ParamsAppend(a, b);
  }

  lemma {:induction false} RenderAppendText(a: seq<Piece>, b: seq<Piece>)
    ensures Render(a + b) == Render(a) + Render(b)
  {
    if a == [] {
      assert a + b == b;
    } else {
      assert (a + b)[1..] == a[1..] + b;
      RenderAppendText(a[1..], b);
    }
  }

  lemma {:induction false} ParamsAppend(a: seq<Piece>, b: seq<Piece>)
    ensures Params(a + b) == Params(a) + Params(b)
  {
    if a == [] {
      assert a + b == b;
    } else {
      assert (a + b)[1..] == a[1..] + b;
      ParamsAppend(a[1..], b);
    }
  }

  /** Concatenation of text is associative. */
  lemma AppendAssociates(a: string, b: string, c: string)
    ensures a + b + c == a + (b + c)
  {
  }

  lemma {:induction false} ExpandAppend(a: seq<Piece>, b: seq<Piece>)
    ensures Expand(a + b) == Expand(a) + Expand(b)
  {
    if a == [] {
      assert a + b == b;
    } else {
      assert (a + b)[1..] == a[1..] + b;
      ExpandAppend(a[1..], b);
    }
  }

  lemma {:induction false} CleanAppend(a: seq<Piece>, b: seq<Piece>)
    requires Clean(a) && Clean(b)
    ensures Clean(a + b)
  {
    forall i | 0 <= i < |a + b| && (a + b)[i].Lit?
      ensures '?' !in (a + b)[i].text
    {
      if i >= |a| {
        assert (a + b)[i] == b[i - |a|];
      }
    }
  }

  lemma PrependPrepend(a: seq<Piece>, b: seq<Piece>, r: Option<seq<Piece>>)
    ensures Prepend(a, Prepend(b, r)) == Prepend(a + b, r)
  {
    if r.Some? {
      assert a + (b + r.value) == (a + b) + r.value;
    }
  }

  /** A character other than `?` in front of the text takes no argument. */
  lemma BindOther(c: char, s: string, args: seq<Arg>)
    requires c != '?'
    ensures Bind([c] + s, args) == Prepend([Lit([c])], Bind(s, args))
  {
    assert ([c] + s)[1..] == s;
  }

  /** Binding text without placeholders in front of other text adds its characters and takes no argument. */
  lemma {:induction false} BindLiteral(t: string, s: string, args: seq<Arg>)
    requires '?' !in t
    ensures Bind(t + s, args) == Prepend(Chars(t), Bind(s, args))
  {
    if t == [] {
      assert t + s == s;
      assert Chars(t) == [];
      var r := Bind(s, args);
      assert r.Some? ==> [] + r.value == r.value;
    } else {
      var c, u := t[0], t[1..];
      assert c != '?' by { assert c in t; }
      assert '?' !in u by {
        forall i | 0 <= i < |u| ensures u[i] != '?' {
          assert u[i] == t[i + 1];
          assert t[i + 1] in t;
        }
      }
      assert t + s == [c] + (u + s);
      BindOther(c, u + s, args);
      BindLiteral(u, s, args);
      PrependPrepend([Lit([c])], Chars(u), Bind(s, args));
      assert Chars(t) == [Lit([c])] + Chars(u);
    }
  }

  lemma BindRenderLit(t: string, rest: seq<Piece>)
    requires '?' !in t
    requires Bind(Render(rest), Params(rest)) == Some(Expand(rest))
    ensures Bind(Render([Lit(t)] + rest), Params([Lit(t)] + rest)) == Some(Expand([Lit(t)] + rest))
  {
    var ps := [Lit(t)] + rest;
    assert ps[0] == Lit(t) && ps[1..] == rest;
    assert Render(ps) == t + Render(rest);
    assert Params(ps) == Params(rest);
    assert Expand(ps) == Chars(t) + Expand(rest);
    BindLiteral(t, Render(rest), Params(rest));
  }

  lemma BindRenderParam(a: Arg, rest: seq<Piece>)
    requires Bind(Render(rest), Params(rest)) == Some(Expand(rest))
    ensures Bind(Render([Param(a)] + rest), Params([Param(a)] + rest)) == Some(Expand([Param(a)] + rest))
  {
    var ps := [Param(a)] + rest;
    assert ps[0] == Param(a) && ps[1..] == rest;
    var s := "?" + Render(rest);
    assert Render(ps) == s;
    assert s[1..] == Render(rest);
    assert Params(ps) == [a] + Params(rest);
    assert ([a] + Params(rest))[1..] == Params(rest);
    assert Expand(ps) == [Param(a)] + Expand(rest);
  }

  lemma BindRenderStep(p: Piece, rest: seq<Piece>)
    requires p.Lit? ==> '?' !in p.text
    requires Bind(Render(rest), Params(rest)) == Some(Expand(rest))
    ensures Bind(Render([p] + rest), Params([p] + rest)) == Some(Expand([p] + rest))
  {
    match p
    case Lit(t) => BindRenderLit(t, rest);
    case Param(a) => BindRenderParam(a, rest);
  }

  lemma CleanTail(ps: seq<Piece>)
    requires Clean(ps) && ps != []
    ensures Clean(ps[1..]) && (ps[0].Lit? ==> '?' !in ps[0].text)
  {
    var rest := ps[1..];
    forall i | 0 <= i < |rest| && rest[i].Lit? ensures '?' !in rest[i].text {
      assert rest[i] == ps[i + 1];
    }
  }

  /**
    Rendering a clean fragment and binding its arguments back gives every
    placeholder the argument its piece carried: the arguments follow the
    placeholders, one for one, left to right.
  */
  lemma {:induction false} BindRender(ps: seq<Piece>)
    requires Clean(ps)
    ensures Bind(Render(ps), Params(ps)) == Some(Expand(ps))
  {
    if ps != [] {
      CleanTail(ps);
      BindRender(ps[1..]);
      BindRenderStep(ps[0], ps[1..]);
      assert ps == [ps[0]] + ps[1..];
    }
  }

  /** Corollary: a clean fragment has exactly as many placeholders as arguments. */
  lemma PlaceholdersMatchParams(ps: seq<Piece>)
    requires Clean(ps)
    ensures Placeholders(Render(ps)) == |Params(ps)|
  {
    BindRender(ps);
  }

  /** Go's strings.Join. */
  function Join(parts: seq<string>, sep: string): string
  {
    if parts == [] then ""
    else if |parts| == 1 then parts[0]
    else parts[0] + sep + Join(parts[1..], sep)
  }

  /** Go's strings.Repeat. */
  function Repeat(s: string, n: nat): string
  {
    if n == 0 then "" else s + Repeat(s, n - 1)
  }

  /** Go's strconv.FormatBool. */
  function FormatBool(b: bool): string
  {
    if b then "true" else "false"
  }

  /** The clauses joined with literal `sep`, in the same order. */
  function JoinPieces(clauses: seq<seq<Piece>>, sep: string): seq<Piece>
  {
    if clauses == [] then []
    else if |clauses| == 1 then clauses[0]
    else clauses[0] + [Lit(sep)] + JoinPieces(clauses[1..], sep)
  }

  /** The rendered text of each clause. */
  function RenderAll(clauses: seq<seq<Piece>>): (r: seq<string>)
    ensures |r| == |clauses|
  {
    if clauses == [] then [] else [Render(clauses[0])] + RenderAll(clauses[1..])
  }

  /** The arguments of all clauses, clause after clause. */
  function ParamsAll(clauses: seq<seq<Piece>>): seq<Arg>
  {
    if clauses == [] then [] else Params(clauses[0]) + ParamsAll(clauses[1..])
  }

  predicate AllClean(clauses: seq<seq<Piece>>)
  {
    forall i :: 0 <= i < |clauses| ==> Clean(clauses[i])
  }

  lemma {:induction false} RenderAllAppend(a: seq<seq<Piece>>, b: seq<seq<Piece>>)
    ensures RenderAll(a + b) == RenderAll(a) + RenderAll(b)
    ensures ParamsAll(a + b) == ParamsAll(a) + ParamsAll(b)
  {
    if a == [] {
      assert a + b == b;
    } else {
      assert (a + b)[1..] == a[1..] + b;
      RenderAllAppend(a[1..], b);
    }
  }

  /** Joining pieces renders as strings.Join of the rendered clauses. */
  lemma RenderSingle(p: Piece)
    ensures Render([p]) == RenderPiece(p) && Params([p]) == PieceParams(p)
  {
    assert [p][1..] == [];
    assert Render([p]) == RenderPiece(p) + Render([]);
    assert Params([p]) == PieceParams(p) + Params([]);
  }

  lemma RenderOne(ps: seq<Piece>)
    ensures RenderAll([ps]) == [Render(ps)] && ParamsAll([ps]) == Params(ps)
  {
    assert [ps][1..] == [];
  }

  lemma AllCleanAppend(a: seq<seq<Piece>>, b: seq<seq<Piece>>)
    requires AllClean(a) && AllClean(b)
    ensures AllClean(a + b)
  {
    forall i | 0 <= i < |a + b| ensures Clean((a + b)[i]) {
      if i < |a| {
        assert (a + b)[i] == a[i];
      } else {
        assert (a + b)[i] == b[i - |a|];
      }
    }
  }

  /** The visible clause both filter compilers emit: the value as literal text, no argument. */
  function VisiblePart(visible: Option<bool>): seq<seq<Piece>>
  {
    if visible.Some? then [[Lit("visible = " + FormatBool(visible.value))]] else []
  }

  lemma RenderVisiblePart(visible: Option<bool>)
    ensures RenderAll(VisiblePart(visible)) == if visible.Some? then ["visible = " + FormatBool(visible.value)] else []
    ensures ParamsAll(VisiblePart(visible)) == []
    ensures AllClean(VisiblePart(visible))
  {
    if visible.Some? {
      var ps := [Lit("visible = " + FormatBool(visible.value))];
      RenderOne(ps);
      RenderSingle(ps[0]);
      assert '?' !in "visible = true" && '?' !in "visible = false";
    }
  }

  lemma {:induction false} JoinPiecesText(clauses: seq<seq<Piece>>, sep: string)
    ensures Render(JoinPieces(clauses, sep)) == Join(RenderAll(clauses), sep)
  {
    if |clauses| == 1 {
      assert RenderAll(clauses) == [Render(clauses[0])] + RenderAll([]);
    } else if |clauses| > 1 {
      var head, rest := clauses[0], clauses[1..];
      var sepPiece: seq<Piece> := [Lit(sep)];
      var tail := JoinPieces(rest, sep);
      var texts := RenderAll(clauses);
      assert texts[0] == Render(head) && texts[1..] == RenderAll(rest);
      calc {
        Render(JoinPieces(clauses, sep));
        { assert JoinPieces(clauses, sep) == head + (sepPiece + tail); }
        Render(head + (sepPiece + tail));
        { RenderAppend(head, sepPiece + tail); }
        Render(head) + Render(sepPiece + tail);
        { RenderAppend(sepPiece, tail); assert Render(sepPiece) == sep by { assert sepPiece[1..] == []; } }
        Render(head) + (sep + Render(tail));
        { JoinPiecesText(rest, sep); }
        texts[0] + (sep + Join(texts[1..], sep));
        { assert |texts| > 1; }
        Join(texts, sep);
      }
    }
  }

  /** Joining pieces keeps every argument, clause after clause. */
  lemma {:induction false} JoinPiecesParams(clauses: seq<seq<Piece>>, sep: string)
    ensures Params(JoinPieces(clauses, sep)) == ParamsAll(clauses)
  {
    if |clauses| == 1 {
      assert ParamsAll(clauses) == Params(clauses[0]) + ParamsAll([]);
    } else if |clauses| > 1 {
      var head, rest := clauses[0], clauses[1..];
      var sepPiece: seq<Piece> := [Lit(sep)];
      var tail := JoinPieces(rest, sep);
      calc {
        Params(JoinPieces(clauses, sep));
        { assert JoinPieces(clauses, sep) == head + (sepPiece + tail); }
        Params(head + (sepPiece + tail));
        { RenderAppend(head, sepPiece + tail); }
        Params(head) + Params(sepPiece + tail);
        { RenderAppend(sepPiece, tail); assert Params(sepPiece) == [] by { assert sepPiece[1..] == []; } }
        Params(head) + Params(tail);
        { JoinPiecesParams(rest, sep); }
        Params(head) + ParamsAll(rest);
      }
    }
  }

  lemma {:induction false} JoinPiecesClean(clauses: seq<seq<Piece>>, sep: string)
    requires AllClean(clauses) && '?' !in sep
    ensures Clean(JoinPieces(clauses, sep))
  {
    if |clauses| > 1 {
      JoinPiecesClean(clauses[1..], sep);
      CleanAppend([Lit(sep)], JoinPieces(clauses[1..], sep));
      CleanAppend(clauses[0], [Lit(sep)] + JoinPieces(clauses[1..], sep));
    }
  }

  /**
    The tail both filter compilers append: nothing when no clause is present,
    otherwise one " WHERE " and the clauses joined with " AND ".
  */
  function Where(clauses: seq<seq<Piece>>): seq<Piece>
  {
    if clauses == [] then [] else [Lit(" WHERE ")] + JoinPieces(clauses, " AND ")
  }

  /** The WHERE tail renders as the compilers' text and carries the clause arguments in clause order. */
  lemma WhereRender(clauses: seq<seq<Piece>>)
    ensures Render(Where(clauses)) ==
      (if clauses == [] then "" else " WHERE " + Join(RenderAll(clauses), " AND "))
    ensures Params(Where(clauses)) == ParamsAll(clauses)
  {
    if clauses != [] {
      JoinPiecesText(clauses, " AND ");
      JoinPiecesParams(clauses, " AND ");
      RenderAppend([Lit(" WHERE ")], JoinPieces(clauses, " AND "));
      assert Render([Lit(" WHERE ")]) == " WHERE ";
      assert Params([Lit(" WHERE ")]) == [];
    }
  }

  /**
    The compilers' text: the query, then, when there are clauses, " WHERE "
    and the clause texts joined with " AND ", is the query followed by the
    rendered WHERE tail.
  */
  lemma WhereText(query: string, clauses: seq<seq<Piece>>)
    ensures (if |RenderAll(clauses)| != 0 then query + " WHERE " + Join(RenderAll(clauses), " AND ") else query)
      == query + Render(Where(clauses))
  {
    WhereRender(clauses);
    var texts := RenderAll(clauses);
    if clauses == [] {
      assert query + "" == query;
    } else {
      assert query + " WHERE " + Join(texts, " AND ") == query + (" WHERE " + Join(texts, " AND "));
    }
  }

  /**
    A query without placeholders followed by the WHERE tail of clean clauses:
    every placeholder of the final text takes the argument of its own clause.
  */
  lemma WhereBinding(query: string, clauses: seq<seq<Piece>>)
    requires '?' !in query && AllClean(clauses)
    ensures Bind(query + Render(Where(clauses)), Params(Where(clauses)))
         == Some(Chars(query) + Expand(Where(clauses)))
    ensures Placeholders(query + Render(Where(clauses))) == |ParamsAll(clauses)|
  {
    if clauses != [] {
      JoinPiecesClean(clauses, " AND ");
      CleanAppend([Lit(" WHERE ")], JoinPieces(clauses, " AND "));
    }
    BindRender(Where(clauses));
    BindLiteral(query, Render(Where(clauses)), Params(Where(clauses)));
    WhereRender(clauses);
  }
}
