/**
 * Placeholder substitution in a document template: `{{name}}` stands for
 * the record's value under `name`. A template is read into literal text and
 * placeholders; filling replaces each placeholder whose name the record has
 * and leaves the others as they were.
 */
module Template {
  import opened Wrappers
  import opened Text

  datatype Token = Lit(text: string) | Hole(name: string)

  /** The values a template is filled with, by placeholder name. */
  type Fields = map<string, string>

  /** The text a token stands for in the document. */
  function TokenText(t: Token): string {
    match t
    case Lit(text) => text
    case Hole(name) => "{{" + name + "}}"
  }

  function Render(tokens: seq<Token>): string
    decreases |tokens|
  {
    if tokens == [] then [] else TokenText(tokens[0]) + Render(tokens[1..])
  }

  /** The names of the placeholders still in a token sequence. */
  function Holes(tokens: seq<Token>): set<string> {
    set i | 0 <= i < |tokens| && tokens[i].Hole? :: tokens[i].name
  }

  /** One token after filling: a placeholder the record knows becomes its value. */
  function FillToken(t: Token, fields: Fields): Token {
    if t.Hole? && t.name in fields then Lit(fields[t.name]) else t
  }

  /** `fill_template`: every placeholder the record knows is replaced; the rest of the template is kept. */
  function Fill(tokens: seq<Token>, fields: Fields): (r: seq<Token>)
    ensures |r| == |tokens|
    ensures forall i :: 0 <= i < |tokens| && tokens[i].Hole? && tokens[i].name in fields ==> r[i] == Lit(fields[tokens[i].name])
    ensures forall i :: 0 <= i < |tokens| && !(tokens[i].Hole? && tokens[i].name in fields) ==> r[i] == tokens[i]
    ensures Holes(r) == Holes(tokens) - fields.Keys
  {
    var r := seq(|tokens|, i requires 0 <= i < |tokens| => FillToken(tokens[i], fields));
    assert Holes(r) == Holes(tokens) - fields.Keys by {
      forall n | n in Holes(tokens) - fields.Keys ensures n in Holes(r) {
        var i :| 0 <= i < |tokens| && tokens[i].Hole? && tokens[i].name == n;
        assert r[i] == tokens[i];
      }
    }
    r
  }

  /** After filling, the placeholders left are exactly those the record has no value for. */
  lemma FillLeavesUnknownHoles(tokens: seq<Token>, fields: Fields)
    ensures Holes(Fill(tokens, fields)) == Holes(tokens) - fields.Keys
  {
  }

  /** Filling a filled template again with the same record changes nothing. */
  lemma FillIdempotent(tokens: seq<Token>, fields: Fields)
    ensures Fill(Fill(tokens, fields), fields) == Fill(tokens, fields)
  {
  }

  /** With an empty record the template comes out unchanged. */
  lemma FillWithNothing(tokens: seq<Token>)
    ensures Fill(tokens, map[]) == tokens
  {
  }

  lemma {:induction false} RenderAppend(a: seq<Token>, b: seq<Token>)
    ensures Render(a + b) == Render(a) + Render(b)
    decreases |a|
  {
    if a == [] {
      assert a + b == b;
    } else {
      assert (a + b)[1..] == a[1..] + b;
      RenderAppend(a[1..], b);
    }
  }

  /** The rendered text is made of the rendered tokens, in order: token `i` sits between the ones before and after it. */
  lemma RenderAround(tokens: seq<Token>, i: nat)
    requires i < |tokens|
    ensures Render(tokens) == Render(tokens[..i]) + TokenText(tokens[i]) + Render(tokens[i + 1..])
  {
    SplitAround(tokens, i);
    RenderSplit(tokens[..i], tokens[i], tokens[i + 1..]);
  }

  /** A sequence is its prefix, the element at `i`, and its suffix. */
  lemma SplitAround(tokens: seq<Token>, i: nat)
    requires i < |tokens|
    ensures tokens[..i] + ([tokens[i]] + tokens[i + 1..]) == tokens
  {
  }

  /** Rendering distributes over a split around one token. */
  lemma RenderSplit(pre: seq<Token>, t: Token, post: seq<Token>)
    ensures Render(pre + ([t] + post)) == Render(pre) + TokenText(t) + Render(post)
  {
    RenderAppend(pre, [t] + post);
    RenderAppend([t], post);
    RenderOne(t);
    var a, b, c := Render(pre), TokenText(t), Render(post);
    assert a + (b + c) == a + b + c;
  }

  lemma RenderCons(t: Token, rest: seq<Token>)
    ensures Render([t] + rest) == TokenText(t) + Render(rest)
  {
    assert ([t] + rest)[1..] == rest;
  }

  lemma RenderOne(t: Token)
    ensures Render([t]) == TokenText(t)
  {
    assert [t][1..] == [];
  }

  /** Each value the record supplies for a placeholder of the template appears in the filled document. */
  lemma FilledValueAppears(tokens: seq<Token>, fields: Fields, i: nat)
    requires i < |tokens| && tokens[i].Hole? && tokens[i].name in fields
    ensures Contains(Render(Fill(tokens, fields)), fields[tokens[i].name])
  {
    var filled := Fill(tokens, fields);
    RenderAround(filled, i);
    ContainsWitness(Render(filled), fields[tokens[i].name], Render(filled[..i]), Render(filled[i + 1..]));
  }

  /** Where the first `}}` at or after position `from` starts. */
  function FindClose(s: string, from: nat): (r: Option<nat>)
    ensures r.Some? ==> from <= r.value && r.value + 2 <= |s| && s[r.value] == '}' && s[r.value + 1] == '}'
    ensures r.Some? ==> forall j :: from <= j < r.value ==> !(s[j] == '}' && s[j + 1] == '}')
    ensures r.None? ==> forall j :: from <= j && j + 1 < |s| ==> !(s[j] == '}' && s[j + 1] == '}')
    decreases |s| - from
  {
    if from + 2 > |s| then None
    else if s[from] == '}' && s[from + 1] == '}' then Some(from)
    else FindClose(s, from + 1)
  }

  predicate OpensAt(s: string, i: nat) {
    i + 1 < |s| && s[i] == '{' && s[i + 1] == '{'
  }

  /**
   * Reading template text: `{{` starts a placeholder that runs to the next
   * `}}`; an opening without a closing makes the template unreadable.
   */
  function Parse(s: string): (r: Option<seq<Token>>)
    decreases |s|
  {
    if s == [] then Some([])
    else if OpensAt(s, 0) then
      match FindClose(s, 2)
      case None => None
      case Some(j) =>
        match Parse(s[j + 2..])
        case None => None
        case Some(rest) => Some([Hole(s[2..j])] + rest)
    else
      match Parse(s[1..])
      case None => None
      case Some(rest) => Some([Lit([s[0]])] + rest)
  }

  /** Reading a template loses nothing: rendering what was read gives the text back. */
  lemma {:induction false} ParseRender(s: string)
    requires Parse(s).Some?
    ensures Render(Parse(s).value) == s
    decreases |s|
  {
    if s != [] {
      if OpensAt(s, 0) {
        var j := FindClose(s, 2).value;
        var rest := Parse(s[j + 2..]).value;
        calc {
          Render(Parse(s).value);
        == { assert Parse(s).value == [Hole(s[2..j])] + rest; }
          Render([Hole(s[2..j])] + rest);
        == { RenderCons(Hole(s[2..j]), rest); }
          TokenText(Hole(s[2..j])) + Render(rest);
        == { ParseRender(s[j + 2..]); }
          "{{" + s[2..j] + "}}" + s[j + 2..];
        == { assert s[..2] == "{{" && s[j..j + 2] == "}}"; }
          s;
        }
      } else {
        var rest := Parse(s[1..]).value;
        calc {
          Render(Parse(s).value);
        == { assert Parse(s).value == [Lit([s[0]])] + rest; }
          Render([Lit([s[0]])] + rest);
        == { RenderCons(Lit([s[0]]), rest); }
          [s[0]] + Render(rest);
        == { ParseRender(s[1..]); }
          [s[0]] + s[1..];
        }
      }
    }
  }

  /** A placeholder written `{{name}}` is read as one placeholder, for any name without a closing brace. */
  lemma ParsePlaceholder(name: string)
    requires '}' !in name
    ensures Parse("{{" + name + "}}") == Some([Hole(name)])
  {
    var s := "{{" + name + "}}";
    var j := |name| + 2;
    assert s[j] == '}' && s[j + 1] == '}';
    assert forall k :: 2 <= k < j ==> s[k] == name[k - 2];
    assert FindClose(s, 2) == Some(j);
    assert s[2..j] == name;
    assert OpensAt(s, 0);
    assert s[j + 2..] == [];
    assert Parse(s[j + 2..]) == Some([]);
    assert [Hole(name)] + [] == [Hole(name)];
  }

  /** Template text filled with a record, or `None` when the text cannot be read. */
  function FillText(template: string, fields: Fields): (r: Option<string>)
    ensures r.Some? <==> Parse(template).Some?
  {
    match Parse(template)
    case None => None
    case Some(tokens) => Some(Render(Fill(tokens, fields)))
  }

  /** Filling with an empty record gives back the template text. */
  lemma FillTextWithNothing(template: string)
    requires Parse(template).Some?
    ensures FillText(template, map[]) == Some(template)
  {
    FillWithNothing(Parse(template).value);
    ParseRender(template);
  }
}
