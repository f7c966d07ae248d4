/** Python's `str.format` with keyword arguments, for templates whose replacement
    fields are plain names: `{name}` is replaced by the named argument, `{{` and
    `}}` stand for literal braces, and a substituted value is never re-scanned. */
module Format {
  import opened Wrappers
  import Strings

  datatype FormatError =
    | UnmatchedBrace        // a lone `}`, an unterminated `{`, or `{` inside a field name
    | MissingField(name: string)

  predicate BraceFree(s: string)
  {
    '{' !in s && '}' !in s
  }

  /** `p` placed in front of a successful result; errors pass through. */
  function Prepend(p: string, r: Result<string, FormatError>): Result<string, FormatError>
  {
    match r
    case Success(v) => Success(p + v)
    case Failure(e) => Failure(e)
  }

  /** `template.format(**fields)`. */
  function Format(template: string, fields: map<string, string>): Result<string, FormatError>
    decreases |template|
  {
    if template == [] then Success("")
    else if |template| > 1 && template[0] == '{' && template[1] == '{' then
      Prepend("{", Format(template[2..], fields))
    else if |template| > 1 && template[0] == '}' && template[1] == '}' then
      Prepend("}", Format(template[2..], fields))
    else if template[0] == '{' then
      var k := Strings.IndexOf(template[1..], '}');
      if k == |template| - 1 then Failure(UnmatchedBrace)
      else
        var name := template[1..k + 1];
        if '{' in name then Failure(UnmatchedBrace)
        else if name !in fields then Failure(MissingField(name))
        else Prepend(fields[name], Format(template[k + 2..], fields))
    else if template[0] == '}' then Failure(UnmatchedBrace)
    else Prepend(template[..1], Format(template[1..], fields))
  }

  /** Brace-free text is copied through unchanged. */
  lemma {:induction false} FormatLiteral(text: string, rest: string, fields: map<string, string>)
    requires BraceFree(text)
    ensures Format(text + rest, fields) == Prepend(text, Format(rest, fields))
    decreases |text|
  {
    if text == [] {
      assert text + rest == rest;
      match Format(rest, fields)
      case Success(v) => assert text + v == v;
      case Failure(_) =>
    } else {
      var t := text + rest;
      assert t[0] == text[0];
      assert t[..1] == text[..1];
      assert t[1..] == text[1..] + rest;
      FormatLiteral(text[1..], rest, fields);
      match Format(rest, fields)
      case Success(v) =>
        assert text[..1] + (text[1..] + v) == text + v;
      case Failure(_) =>
    }
  }

  /** A replacement field `{name}` is replaced by the value bound to `name`. */
  lemma FormatField(name: string, rest: string, fields: map<string, string>)
    requires BraceFree(name) && name in fields
    ensures Format("{" + name + "}" + rest, fields) == Prepend(fields[name], Format(rest, fields))
  {
    var t := "{" + name + "}" + rest;
    assert t[1..] == name + "}" + rest;
    Strings.IndexOfAfter(name, '}', rest);
    assert t[1..|name| + 1] == name;
    assert t[|name| + 2..] == rest;
    if |name| > 0 {
      assert t[1] == name[0];
    } else {
      assert t[1] == '}';
    }
  }

  /** A template seen as a sequence of literal text and replacement fields. */
  datatype Piece = Text(text: string) | Field(name: string)

  /** The template text the pieces spell. */
  function Source(pieces: seq<Piece>): string
  {
    if pieces == [] then ""
    else
      (match pieces[0]
       case Text(t) => t
       case Field(n) => "{" + n + "}")
      + Source(pieces[1..])
  }

  /** The pieces with every field replaced by its value. */
  function Fill(pieces: seq<Piece>, fields: map<string, string>): string
  {
    if pieces == [] then ""
    else
      (match pieces[0]
       case Text(t) => t
       case Field(n) => if n in fields then fields[n] else "")
      + Fill(pieces[1..], fields)
  }

  /** Every literal piece is brace-free and every field is a bound plain name. */
  predicate WellFormed(pieces: seq<Piece>, fields: map<string, string>)
  {
    forall k :: 0 <= k < |pieces| ==>
      match pieces[k]
      case Text(t) => BraceFree(t)
      case Field(n) => BraceFree(n) && n in fields
  }

  /** Formatting a well-formed template never fails and substitutes every field. */
  lemma {:induction false} FormatPieces(pieces: seq<Piece>, fields: map<string, string>)
    requires WellFormed(pieces, fields)
    ensures Format(Source(pieces), fields) == Success(Fill(pieces, fields))
    decreases |pieces|
  {
    if pieces != [] {
      var rest := pieces[1..];
      assert WellFormed(rest, fields) by {
        forall k | 0 <= k < |rest| ensures
          match rest[k]
          case Text(t) => BraceFree(t)
          case Field(n) => BraceFree(n) && n in fields
        {
          assert rest[k] == pieces[k + 1];
        }
      }
      FormatPieces(rest, fields);
      assert match pieces[0]
             case Text(t) => BraceFree(t)
             case Field(n) => BraceFree(n) && n in fields;
      match pieces[0]
      case Text(t) =>
        FormatLiteral(t, Source(rest), fields);
      case Field(n) =>
        FormatField(n, Source(rest), fields);
        assert "{" + n + "}" + Source(rest) == Source(pieces);
    }
  }
}
