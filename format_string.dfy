/**
  `template.format(**fields)` for templates whose replacement fields are bare
  names: `{name}` is replaced by the value of keyword `name`, `{{` and `}}`
  stand for literal braces, and the template is read left to right so that the
  first problem met is the one raised.
 */
module FormatString {
  import opened Wrappers

  datatype FormatError =
    | UnknownField(name: string)  // `KeyError` (`IndexError` for a numeric name): no keyword of that name
    | UnclosedField               // `ValueError`: a `{` with no `}` after it
    | SingleCloseBrace            // `ValueError`: a `}` that closes nothing

  /** The first position of `c` in `s`. */
  function IndexOf(s: string, c: char): (r: Option<nat>)
    ensures r.Some? ==> r.value < |s| && s[r.value] == c && c !in s[..r.value]
    ensures r.None? ==> c !in s
  {
    if s == [] then None
    else if s[0] == c then Some(0)
    else match IndexOf(s[1..], c)
      case None => None
      case Some(k) => Some(k + 1)
  }

  function Prepend(s: string, r: Result<string, FormatError>): Result<string, FormatError> {
    match r
    case Success(t) => Success(s + t)
    case Failure(e) => Failure(e)
  }

  /**
    Substitutes `fields` into `template`, or fails with the first error in
    reading order. An unknown field always names a placeholder that has no keyword.
   */
  function Format(template: string, fields: map<string, string>): (r: Result<string, FormatError>)
    ensures r.Failure? && r.error.UnknownField? ==> r.error.name !in fields
    decreases |template|
  {
    if template == [] then Success([])
    else if template[0] == '{' && |template| > 1 && template[1] == '{' then
      Prepend("{", Format(template[2..], fields))
    else if template[0] == '{' then
      match IndexOf(template[1..], '}')
      case None => Failure(UnclosedField)
      case Some(k) =>
        var name := template[1..k + 1];
        if name in fields then Prepend(fields[name], Format(template[k + 2..], fields))
        else Failure(UnknownField(name))
    else if template[0] == '}' && |template| > 1 && template[1] == '}' then
      Prepend("}", Format(template[2..], fields))
    else if template[0] == '}' then Failure(SingleCloseBrace)
    else Prepend([template[0]], Format(template[1..], fields))
  }

  /** A name that can stand between braces: no `}` in it, and not a `{{` escape. */
  predicate IsFieldName(name: string) {
    '}' !in name && (|name| > 0 ==> name[0] != '{')
  }

  /** Text without braces is copied unchanged. */
  lemma {:induction false} FormatPlainText(text: string, fields: map<string, string>)
    requires '{' !in text && '}' !in text
    ensures Format(text, fields) == Success(text)
  {
    if text != [] {
      FormatPlainText(text[1..], fields);
      assert [text[0]] + text[1..] == text;
    }
  }

  /** A single field is replaced by its value, and a name with no value fails with `KeyError`. */
  lemma FormatField(name: string, rest: string, fields: map<string, string>)
    requires IsFieldName(name)
    ensures name in fields ==> Format("{" + name + "}" + rest, fields) == Prepend(fields[name], Format(rest, fields))
    ensures name !in fields ==> Format("{" + name + "}" + rest, fields) == Failure(UnknownField(name))
  {
    var t := "{" + name + "}" + rest;
    assert t[1..] == name + "}" + rest;
    assert t[1..][..|name|] == name;
    IndexOfAt(t[1..], '}', |name|);
    assert t[1..|name| + 1] == name;
    assert t[|name| + 2..] == rest;
  }

  /** `{{` and `}}` stand for one literal brace each. */
  lemma FormatEscapes(rest: string, fields: map<string, string>)
    ensures Format("{{" + rest, fields) == Prepend("{", Format(rest, fields))
    ensures Format("}}" + rest, fields) == Prepend("}", Format(rest, fields))
  {
    assert ("{{" + rest)[2..] == rest;
    assert ("}}" + rest)[2..] == rest;
  }

  /** A `{` that opens a field no `}` closes raises `ValueError`. */
  lemma FormatUnclosed(text: string, fields: map<string, string>)
    requires '}' !in text && (text == [] || text[0] != '{')
    ensures Format("{" + text, fields) == Failure(UnclosedField)
  {
    assert ("{" + text)[1..] == text;
  }

  /** A `}` that is not doubled raises `ValueError`. */
  lemma FormatStrayClose(rest: string, fields: map<string, string>)
    requires rest == [] || rest[0] != '}'
    ensures Format("}" + rest, fields) == Failure(SingleCloseBrace)
  {
  }

  /** Literal text followed by a template that formats: the text comes first in the output. */
  lemma FormatTextThen(text: string, rest: string, fields: map<string, string>)
    requires '{' !in text && '}' !in text && Format(rest, fields).Success?
    ensures Format(text + rest, fields) == Success(text + Format(rest, fields).value)
  {
    FormatPlainText(text, fields);
    FormatAppend(text, rest, fields);
  }

  /** A known field followed by a template that formats: the field's value comes first in the output. */
  lemma FormatFieldThen(name: string, rest: string, fields: map<string, string>)
    requires IsFieldName(name) && name in fields && Format(rest, fields).Success?
    ensures Format("{" + name + "}" + rest, fields) == Success(fields[name] + Format(rest, fields).value)
  {
    FormatField(name, rest, fields);
  }

  /** A lone known field formats as its value. */
  lemma FormatFieldAlone(name: string, fields: map<string, string>)
    requires IsFieldName(name) && name in fields
    ensures Format("{" + name + "}", fields) == Success(fields[name])
  {
    assert "{" + name + "}" == "{" + name + "}" + "";
    FormatField(name, "", fields);
    assert fields[name] + "" == fields[name];
  }

  /** Two fields around a separator: `"{a}-{b}"` gives the value of `a`, the separator, the value of `b`. */
  lemma FormatTwoFields(a: string, sep: string, b: string, fields: map<string, string>)
    requires IsFieldName(a) && a in fields && IsFieldName(b) && b in fields
    requires '{' !in sep && '}' !in sep
    ensures Format("{" + a + "}" + sep + "{" + b + "}", fields) == Success(fields[a] + sep + fields[b])
  {
    var fb := "{" + b + "}";
    var tail := sep + fb;
    var whole := "{" + a + "}" + tail;
    assert "{" + a + "}" + sep + "{" + b + "}" == whole;
    assert Format(tail, fields) == Success(sep + fields[b]) by {
      FormatFieldAlone(b, fields);
      FormatTextThen(sep, fb, fields);
    }
    assert Format(whole, fields) == Success(fields[a] + (sep + fields[b])) by {
      FormatFieldThen(a, tail, fields);
    }
    assert fields[a] + (sep + fields[b]) == fields[a] + sep + fields[b];
  }

  /** A known field and literal text in front of a template that formats. */
  lemma FormatFieldTextThen(name: string, text: string, rest: string, fields: map<string, string>)
    requires IsFieldName(name) && name in fields && '{' !in text && '}' !in text
    requires Format(rest, fields).Success?
    ensures Format("{" + name + "}" + (text + rest), fields) == Success(fields[name] + (text + Format(rest, fields).value))
  {
    FormatTextThen(text, rest, fields);
    FormatFieldThen(name, text + rest, fields);
  }

  /**
    A template that formats completely can be followed by anything: the output
    of the whole is its output followed by that of the rest.
   */
  lemma {:induction false} FormatAppend(a: string, b: string, fields: map<string, string>)
    requires Format(a, fields).Success?
    ensures Format(a + b, fields) == Prepend(Format(a, fields).value, Format(b, fields))
    decreases |a|
  {
    var t := a + b;
    if a == [] {
      assert t == b;
      match Format(b, fields)
      case Success(v) => assert [] + v == v;
      case Failure(_) =>
    } else if a[0] == '{' && |a| > 1 && a[1] == '{' {
      assert t[..2] == a[..2] && t[2..] == a[2..] + b;
      FormatAppend(a[2..], b, fields);
      PrependTwice("{", Format(a[2..], fields).value, Format(b, fields));
    } else if a[0] == '{' {
      var k := IndexOf(a[1..], '}').value;
      assert t[..2] == a[..2] && t[1..] == a[1..] + b;
      IndexOfPrefix(a[1..], b, '}');
      assert k + 2 <= |a|;
      assert t == a[..k + 2] + (a[k + 2..] + b);
      assert t[1..k + 1] == a[1..k + 1] && t[k + 2..] == a[k + 2..] + b;
      FormatAppend(a[k + 2..], b, fields);
      PrependTwice(fields[a[1..k + 1]], Format(a[k + 2..], fields).value, Format(b, fields));
    } else if a[0] == '}' {
      assert t[..2] == a[..2] && t[2..] == a[2..] + b;
      FormatAppend(a[2..], b, fields);
      PrependTwice("}", Format(a[2..], fields).value, Format(b, fields));
    } else {
      assert t[0] == a[0] && t[1..] == a[1..] + b;
      FormatAppend(a[1..], b, fields);
      PrependTwice([a[0]], Format(a[1..], fields).value, Format(b, fields));
    }
  }

  lemma PrependTwice(s: string, t: string, r: Result<string, FormatError>)
    ensures Prepend(s, Prepend(t, r)) == Prepend(s + t, r)
  {
    if r.Success? {
      assert s + (t + r.value) == (s + t) + r.value;
    }
  }

  lemma IndexOfPrefix(a: string, b: string, c: char)
    requires IndexOf(a, c).Some?
    ensures IndexOf(a + b, c) == IndexOf(a, c)
  {
    var k := IndexOf(a, c).value;
    IndexOfAt(a + b, c, k);
  }

  lemma {:induction false} IndexOfAt(s: string, c: char, k: nat)
    requires k < |s| && s[k] == c && c !in s[..k]
    ensures IndexOf(s, c) == Some(k)
  {
    if k > 0 {
      assert s[1..][..k - 1] == s[..k][1..];
      IndexOfAt(s[1..], c, k - 1);
    }
  }

  /**
    An unrecognised field anywhere after a well-formed prefix makes the whole
    template fail with its name, whatever follows it.
   */
  lemma FormatUnknownFieldFails(a: string, name: string, b: string, fields: map<string, string>)
    requires Format(a, fields).Success? && IsFieldName(name) && name !in fields
    ensures Format(a + "{" + name + "}" + b, fields) == Failure(UnknownField(name))
  {
    assert a + "{" + name + "}" + b == a + ("{" + name + "}" + b);
    FormatAppend(a, "{" + name + "}" + b, fields);
    FormatField(name, b, fields);
  }

  /**
    Whether formatting succeeds, and with which error it fails, depends only on
    the template and the names of the fields, not on their values.
   */
  lemma {:induction false} FormatOutcomeIgnoresValues(template: string, f: map<string, string>, g: map<string, string>)
    requires f.Keys == g.Keys
    ensures Format(template, f).Success? <==> Format(template, g).Success?
    ensures Format(template, f).Failure? ==> Format(template, f) == Format(template, g)
    decreases |template|
  {
    if template == [] {
    } else if template[0] == '{' && |template| > 1 && template[1] == '{' {
      FormatOutcomeIgnoresValues(template[2..], f, g);
    } else if template[0] == '{' {
      match IndexOf(template[1..], '}')
      case None =>
      case Some(k) =>
        FormatOutcomeIgnoresValues(template[k + 2..], f, g);
    } else if template[0] == '}' {
      if |template| > 1 && template[1] == '}' {
        FormatOutcomeIgnoresValues(template[2..], f, g);
      }
    } else {
      FormatOutcomeIgnoresValues(template[1..], f, g);
    }
  }
}
