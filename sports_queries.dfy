/** The events query templates (sports/db/queries.go). */
module SportsQueries {
  import opened SqlText

  /** Key of the list template. */
  const EventsList := "list"

  /** The columns the row scanner reads, in the order it reads them. */
  const EventColumns := ["id", "name", "player_one", "player_two", "arena", "visible", "winner", "advertised_start_time"]

  /** Layout of the raw template: the SELECT line, the table line and the closing indentation. */
  const SelectLine := "\n\t\t\t" + "SELECT "
  const FromLine := "\n\t\t\t" + "FROM events"
  const Closing := "\n\t\t"

  /** A column on its own line, indented by four tabs, followed by `after`. */
  function ColumnLine(column: string, after: string): string
  {
    "\n\t\t\t\t" + (column + after)
  }

  /** One line per column; every column but the last is followed by ", ", the last by " ". */
  function ColumnLines(columns: seq<string>): string
  {
    if columns == [] then ""
    else if |columns| == 1 then ColumnLine(columns[0], " ")
    else ColumnLine(columns[0], ", ") + ColumnLines(columns[1..])
  }

  /**
    The list template exactly as written in the source: a raw string whose
    line breaks and tabs are part of its value, one column per line.
  */
  const EventsListTemplate := SelectLine + ColumnLines(EventColumns) + FromLine + Closing

  /** getEventsQueries: the template store, addressed by name. */
  function GetEventsQueries(): (m: map<string, string>)
    ensures m.Keys == {EventsList} && |m| == 1
  {
    map[EventsList := EventsListTemplate]
  }

  /** The tests' normalisation: every line break and tab removed. */
  function Strip(s: string): string
  {
    if s == [] then ""
    else (if s[0] == '\n' || s[0] == '\t' then "" else [s[0]]) + Strip(s[1..])
  }

  lemma {:induction false} StripAppend(a: string, b: string)
    ensures Strip(a + b) == Strip(a) + Strip(b)
  {
    if a == [] {
      assert a + b == b;
    } else {
      assert (a + b)[1..] == a[1..] + b;
      StripAppend(a[1..], b);
    }
  }

  /** Stripping changes nothing in text without line breaks or tabs. */
  lemma {:induction false} StripPlain(s: string)
    requires '\n' !in s && '\t' !in s
    ensures Strip(s) == s
  {
    if s != [] {
      assert s[0] in s;
      assert '\n' !in s[1..] && '\t' !in s[1..] by {
        forall i | 0 <= i < |s[1..]| ensures s[1..][i] != '\n' && s[1..][i] != '\t' {
          assert s[1..][i] == s[i + 1] && s[i + 1] in s;
        }
      }
      StripPlain(s[1..]);
      assert s == [s[0]] + s[1..];
    }
  }

  /** Stripping keeps exactly the characters that are not line breaks or tabs. */
  lemma {:induction false} StripKeeps(s: string, c: char)
    requires c != '\n' && c != '\t'
    ensures c in s <==> c in Strip(s)
  {
    if s != [] {
      StripKeeps(s[1..], c);
      assert s == [s[0]] + s[1..];
    }
  }

  /** The column lines strip to the columns joined with ", ", and one space. */
  lemma {:induction false} StripColumnLines(columns: seq<string>)
    requires columns != []
    requires forall i :: 0 <= i < |columns| ==> '\n' !in columns[i] && '\t' !in columns[i]
    ensures Strip(ColumnLines(columns)) == Join(columns, ", ") + " "
  {
    var c := columns[0];
    assert '\n' !in c && '\t' !in c;
    if |columns| == 1 {
      StripIndented("\n\t\t\t\t", c + " ");
    } else {
      var rest := columns[1..];
      StripIndented("\n\t\t\t\t", c + ", ");
      StripColumnLines(rest);
      StripAppend(ColumnLine(c, ", "), ColumnLines(rest));
      AppendAssociates(c + ", ", Join(rest, ", "), " ");
    }
  }

  /** Text made only of line breaks and tabs strips to nothing. */
  lemma {:induction false} StripLayoutOnly(s: string)
    requires forall i :: 0 <= i < |s| ==> s[i] == '\n' || s[i] == '\t'
    ensures Strip(s) == ""
  {
    if s != [] {
      StripLayoutOnly(s[1..]);
    }
  }

  /** An indented line strips to its text. */
  lemma {:induction false} StripIndented(indent: string, line: string)
    requires forall i :: 0 <= i < |indent| ==> indent[i] == '\n' || indent[i] == '\t'
    requires '\n' !in line && '\t' !in line
    ensures Strip(indent + line) == line
  {
    if indent == [] {
      assert indent + line == line;
      StripPlain(line);
    } else {
      assert (indent + line)[1..] == indent[1..] + line;
      StripIndented(indent[1..], line);
    }
  }

  lemma StripSelectLine()
    ensures Strip(SelectLine) == "SELECT "
  {
    StripIndented("\n\t\t\t", "SELECT ");
  }

  lemma StripFromLine()
    ensures Strip(FromLine) == "FROM events"
  {
    StripIndented("\n\t\t\t", "FROM events");
  }

  lemma StripClosing()
    ensures Strip(Closing) == ""
  {
    StripLayoutOnly(Closing);
  }

  /** Stripping the layout of a template with any layout lines and plain columns. */
  lemma StripTemplate(select: string, columns: seq<string>, from: string, closing: string)
    requires columns != []
    requires forall i :: 0 <= i < |columns| ==> '\n' !in columns[i] && '\t' !in columns[i]
    requires Strip(select) == "SELECT " && Strip(from) == "FROM events" && Strip(closing) == ""
    ensures Strip(select + ColumnLines(columns) + from + closing) == "SELECT " + Join(columns, ", ") + " FROM events"
  {
    var lines, joined := ColumnLines(columns), Join(columns, ", ");
    calc {
      Strip(select + lines + from + closing);
      { StripAppend(select + lines + from, closing); }
      Strip(select + lines + from) + "";
      Strip(select + lines + from);
      { StripAppend(select + lines, from); StripAppend(select, lines); StripColumnLines(columns); }
      "SELECT " + (joined + " ") + "FROM events";
      { AppendAssociates("SELECT ", joined, " "); }
      "SELECT " + joined + " " + "FROM events";
      { AppendAssociates("SELECT " + joined, " ", "FROM events"); }
      "SELECT " + joined + (" " + "FROM events");
      { assert " " + "FROM events" == " FROM events"; }
      "SELECT " + joined + " FROM events";
    }
  }

  /** The template with its layout removed, as the tests compare it. */
  const StrippedTemplate := "SELECT " + Join(EventColumns, ", ") + " FROM events"

  /**
    With line breaks and tabs removed, the template is the tests' SELECT of
    exactly the scanner's eight columns, in the scanner's order, from the
    events table.
  */
  lemma TemplateSelectsScannedColumns()
    ensures Strip(GetEventsQueries()[EventsList]) == StrippedTemplate
    ensures Strip(EventsListTemplate) == StrippedTemplate
  {
    StripSelectLine();
    StripFromLine();
    StripClosing();
    ColumnsAvoid('\n');
    ColumnsAvoid('\t');
    StripTemplate(SelectLine, EventColumns, FromLine, Closing);
  }

  /** A character that is in no part and not in the separator is not in the joined text. */
  lemma {:induction false} JoinAvoids(parts: seq<string>, sep: string, c: char)
    requires c !in sep
    requires forall i :: 0 <= i < |parts| ==> c !in parts[i]
    ensures c !in Join(parts, sep)
  {
    if |parts| > 1 {
      JoinAvoids(parts[1..], sep, c);
    }
  }

  /** Text made of lower-case ASCII letters and underscores, as every column name is. */
  predicate LowerSnake(s: string)
  {
    forall j :: 0 <= j < |s| ==> 'a' <= s[j] <= 'z' || s[j] == '_'
  }

  lemma EventColumnsLowerSnake()
    ensures forall i :: 0 <= i < |EventColumns| ==> LowerSnake(EventColumns[i])
  {
  }

  lemma LowerSnakeAvoids(s: string, c: char)
    requires LowerSnake(s) && !('a' <= c <= 'z' || c == '_')
    ensures c !in s
  {
  }

  lemma ColumnsAvoid(c: char)
    requires !('a' <= c <= 'z' || c == '_')
    ensures forall i :: 0 <= i < |EventColumns| ==> c !in EventColumns[i]
  {
    EventColumnsLowerSnake();
    forall i | 0 <= i < |EventColumns| ensures c !in EventColumns[i] {
      LowerSnakeAvoids(EventColumns[i], c);
    }
  }

  /** A character outside the columns, the separator and the fixed words is not in the SELECT. */
  lemma SelectAvoids(columns: seq<string>, c: char)
    requires c !in "SELECT , FROM events"
    requires forall i :: 0 <= i < |columns| ==> c !in columns[i]
    ensures c !in "SELECT " + Join(columns, ", ") + " FROM events"
  {
    JoinAvoids(columns, ", ", c);
  }

  lemma StrippedTemplateAvoids(c: char)
    requires !('a' <= c <= 'z' || c == '_') && c !in "SELECT , FROM events"
    ensures c !in StrippedTemplate
  {
    ColumnsAvoid(c);
    SelectAvoids(EventColumns, c);
  }

  /** The template leaves out a character exactly when its stripped form does. */
  lemma TemplateAvoids(c: char)
    requires !('a' <= c <= 'z' || c == '_') && c !in "SELECT , FROM events"
    requires c != '\n' && c != '\t'
    ensures c !in EventsListTemplate
  {
    TemplateSelectsScannedColumns();
    StrippedTemplateAvoids(c);
    StripKeeps(EventsListTemplate, c);
  }

  lemma TemplateHasNoPlaceholder()
    ensures '?' !in EventsListTemplate
  {
    TemplateAvoids('?');
  }

  /** The template carries no placeholder and no WHERE, so any clause appended to it is the first. */
  lemma TemplateHasNoClause()
    ensures Placeholders(EventsListTemplate) == 0
    ensures '?' !in EventsListTemplate && 'W' !in EventsListTemplate
  {
    TemplateAvoids('?');
    TemplateAvoids('W');
    NoPlaceholders(EventsListTemplate);
  }
}
