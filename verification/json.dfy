/** The slice of JSON the protocol relies on.

    `Value` is the payload type of an envelope's `o` field, with JavaScript's
    truthiness rule. The handshake object is a flat JSON object whose members
    are all strings; `Stringify` and `Parse` are a concrete, injective text
    encoding of such objects, escaped as JSON.stringify escapes strings and
    read back as JSON.parse reads them, with the round trip proved. */
module Json {
  import opened Wrappers
  import opened Hex

  /** A JSON value. Numbers are integers here. */
  datatype Value =
    | Null
    | Bool(b: bool)
    | Num(n: int)
    | Str(s: string)
    | Arr(items: seq<Value>)
    | Obj(members: seq<(string, Value)>)

  /** JavaScript truthiness of a JSON value: null, false, 0 and "" are falsy,
      every array and object is truthy. */
  predicate Truthy(v: Value): (r: bool)
    ensures r <==> v !in {Null, Bool(false), Num(0), Str("")}
  {
    match v
    case Null => false
    case Bool(b) => b
    case Num(n) => n != 0
    case Str(s) => s != ""
    case Arr(_) => true
    case Obj(_) => true
  }

  /** Truthiness of an optional string member: absent (undefined) and "" are falsy. */
  predicate Present(s: Option<string>): (r: bool)
    ensures r <==> s !in {None, Some("")}
  {
    s.Some? && s.value != ""
  }

  /** One member of a flat object: a name and a string value. */
  type Field = (string, string)

  const BACKSPACE: char := '\U{0008}'
  const FORM_FEED: char := '\U{000C}'

  /** JSON.stringify's form of one character of a string body: quote and
      backslash get a backslash; backspace, tab, line feed, form feed and
      carriage return get their short escapes; every other character below
      U+0020 becomes `\u00` followed by two lower-case hex digits; the rest
      stand for themselves. */
  function EscapeChar(c: char): (r: string)
    ensures forall k :: 0 <= k < |r| ==> r[k] >= ' '
    ensures |r| == 1 <==> c >= ' ' && c != '"' && c != '\\'
    ensures |r| == 1 ==> r == [c]
  {
    if c == '"' || c == '\\' then ['\\', c]
    else if c == BACKSPACE then ['\\', 'b']
    else if c == '\t' then ['\\', 't']
    else if c == '\n' then ['\\', 'n']
    else if c == FORM_FEED then ['\\', 'f']
    else if c == '\r' then ['\\', 'r']
    else if c < ' ' then ['\\', 'u', '0', '0', HexDigit(c as int / 16), HexDigit(c as int % 16)]
    else [c]
  }

  /** A string body as JSON.stringify writes it: no raw control character
      and no raw quote remains. */
  function Escape(s: string): (r: string)
    ensures forall k :: 0 <= k < |r| ==> r[k] >= ' '
  {
    if s == [] then [] else EscapeChar(s[0]) + Escape(s[1..])
  }

  /** Value of four hex digits. */
  function Hex4(t: string): (r: Option<nat>)
    requires |t| == 4
    ensures r.Some? <==> forall k :: 0 <= k < 4 ==> DigitValue(t[k]).Some?
    ensures r.Some? ==> r.value < 0x1_0000
  {
    match (DigitValue(t[0]), DigitValue(t[1]), DigitValue(t[2]), DigitValue(t[3]))
    case (Some(a), Some(b), Some(c), Some(d)) => Some(((a * 16 + b) * 16 + c) * 16 + d)
    case _ => None
  }

  /** Reads one character of a string body, escaped or not, at the start of
      `t`; yields it and the text after it. JSON.parse rejects a raw
      character below U+0020 and an unknown escape. */
  function ReadChar(t: string): (r: Option<(char, string)>)
    requires t != [] && t[0] != '"'
    ensures r.Some? ==> |r.value.1| < |t|
    ensures t[0] != '\\' ==> (r.Some? <==> t[0] >= ' ')
    ensures t[0] != '\\' && r.Some? ==> r.value == (t[0], t[1..])
    ensures t[0] == '\\' && |t| < 2 ==> r == None
    ensures t[0] == '\\' && |t| >= 2 ==>
      && (t[1] in {'"', '\\', '/'} ==> r == Some((t[1], t[2..])))
      && (t[1] == 'b' ==> r == Some((BACKSPACE, t[2..])))
      && (t[1] == 'f' ==> r == Some((FORM_FEED, t[2..])))
      && (t[1] == 'n' ==> r == Some(('\n', t[2..])))
      && (t[1] == 'r' ==> r == Some(('\r', t[2..])))
      && (t[1] == 't' ==> r == Some(('\t', t[2..])))
      && (t[1] == 'u' ==>
            && (r.Some? <==> |t| >= 6 && Hex4(t[2..6]).Some? && !(0xD800 <= Hex4(t[2..6]).value < 0xE000))
            && (r.Some? ==> r == Some((Hex4(t[2..6]).value as char, t[6..]))))
      && (t[1] !in {'"', '\\', '/', 'b', 'f', 'n', 'r', 't', 'u'} ==> r == None)
  {
    if t[0] == '\\' then
      if |t| < 2 then None
      else if t[1] == '"' || t[1] == '\\' || t[1] == '/' then Some((t[1], t[2..]))
      else if t[1] == 'b' then Some((BACKSPACE, t[2..]))
      else if t[1] == 't' then Some(('\t', t[2..]))
      else if t[1] == 'n' then Some(('\n', t[2..]))
      else if t[1] == 'f' then Some((FORM_FEED, t[2..]))
      else if t[1] == 'r' then Some(('\r', t[2..]))
      else if t[1] == 'u' && |t| >= 6 then
        match Hex4(t[2..6])
        case None => None
        case Some(v) =>
          // Dafny characters are Unicode scalar values: a surrogate escape
          // has no character of its own.
          if 0xD800 <= v < 0xE000 then None else Some((v as char, t[6..]))
      else None
    else if t[0] < ' ' then None
    else Some((t[0], t[1..]))
  }

  /** Reads a string body that starts just after its opening quote. Yields the
      decoded text and the input that follows the closing quote, which is
      shorter than the input. */
  function ReadString(t: string): (r: Option<(string, string)>)
    ensures r.Some? ==> |r.value.1| < |t|
    decreases |t|
  {
    if t == [] then None
    else if t[0] == '"' then Some(([], t[1..]))
    else
      match ReadChar(t)
      case None => None
      case Some(cr) =>
        match ReadString(cr.1)
        case None => None
        case Some(p) => Some(([cr.0] + p.0, p.1))
  }

  /** Reading one escaped character gives it back. */
  lemma ReadEscapedChar(c: char, t: string)
    ensures EscapeChar(c)[0] != '"'
    ensures ReadChar(EscapeChar(c) + t) == Some((c, t))
  {
    var e := EscapeChar(c);
    var u := e + t;
    if |e| == 2 {
      assert u[2..] == t;
    } else if |e| == 6 {
      assert u[2..6] == e[2..6];
      assert u[6..] == t;
    } else {
      assert u[1..] == t;
    }
  }

  /** One character, then the rest of the body. */
  lemma ReadStringStep(u: string, c: char, t: string, body: string, rest: string)
    requires u != [] && u[0] != '"'
    requires ReadChar(u) == Some((c, t))
    requires ReadString(t) == Some((body, rest))
    ensures ReadString(u) == Some(([c] + body, rest))
  {
  }

  /** Reading back an escaped string recovers it and leaves what follows its
      closing quote untouched. */
  lemma {:induction false} ReadEscaped(s: string, rest: string)
    ensures ReadString(Escape(s) + ['"'] + rest) == Some((s, rest))
    decreases |s|
  {
    if s == [] {
      assert Escape(s) + ['"'] + rest == ['"'] + rest;
    } else {
      var tail := Escape(s[1..]) + ['"'] + rest;
      var u := EscapeChar(s[0]) + tail;
      ReadEscaped(s[1..], rest);
      ReadEscapedChar(s[0], tail);
      ReadStringStep(u, s[0], tail, s[1..], rest);
      assert Escape(s) + ['"'] + rest == u;
      assert [s[0]] + s[1..] == s;
    }
  }

  /** `"name":"value"` */
  function Member(fd: Field): (r: string)
    ensures |r| >= 5 && r[0] == '"' && r[|r| - 1] == '"'
    ensures forall k :: 0 <= k < |r| ==> r[k] >= ' '
  {
    ['"'] + Escape(fd.0) + ['"', ':', '"'] + Escape(fd.1) + ['"']
  }

  /** Members separated by commas, in order. */
  function Members(fs: seq<Field>): (r: string)
    ensures forall k :: 0 <= k < |r| ==> r[k] >= ' '
  {
    if fs == [] then []
    else if |fs| == 1 then Member(fs[0])
    else Member(fs[0]) + [','] + Members(fs[1..])
  }

  /** JSON text of a flat object with string members (what JSON.stringify
      produces for it). */
  function Stringify(fs: seq<Field>): (r: string)
    ensures |r| >= 2 && r[0] == '{' && r[|r| - 1] == '}'
    ensures r == ['{', '}'] <==> fs == []
    ensures forall k :: 0 <= k < |r| ==> r[k] >= ' '
  {
    ['{'] + Members(fs) + ['}']
  }

  /** Reads one `"name":"value"` member; yields it and the text after it,
      which is shorter than the input. */
  function ReadMember(t: string): (r: Option<(Field, string)>)
    ensures r.Some? ==> |r.value.1| < |t|
  {
    if |t| < 1 || t[0] != '"' then None
    else
      match ReadString(t[1..])
      case None => None
      case Some(kr) =>
        var r1 := kr.1;
        if |r1| < 2 || r1[0] != ':' || r1[1] != '"' then None
        else
          match ReadString(r1[2..])
          case None => None
          case Some(vr) => Some(((kr.0, vr.0), vr.1))
  }

  /** Reads one or more members followed by the closing brace and the end of
      the text. */
  function ReadMembers(t: string): (r: Option<seq<Field>>)
    ensures r.Some? ==> |r.value| >= 1
    decreases |t|
  {
    match ReadMember(t)
    case None => None
    case Some(mr) =>
      var rest := mr.1;
      if rest == ['}'] then Some([mr.0])
      else if |rest| >= 1 && rest[0] == ',' then
        match ReadMembers(rest[1..])
        case None => None
        case Some(more) => Some([mr.0] + more)
      else None
  }

  /** Parses the JSON text of a flat object with string members; None where
      JSON.parse would throw or the text is outside this fragment. */
  function Parse(t: string): (r: Option<seq<Field>>)
    ensures r.Some? ==> |t| >= 2 && t[0] == '{'
    ensures r == Some([]) <==> t == ['{', '}']
  {
    if t == ['{', '}'] then Some([])
    else if |t| >= 1 && t[0] == '{' then ReadMembers(t[1..])
    else None
  }

  /** The steps of `ReadMember` on a text whose name and value read back. */
  lemma ReadMemberSteps(t: string, fd: Field, r2: string, tail: string)
    requires |t| >= 1 && t[0] == '"'
    requires ReadString(t[1..]) == Some((fd.0, [':', '"'] + r2))
    requires ReadString(r2) == Some((fd.1, tail))
    ensures ReadMember(t) == Some((fd, tail))
  {
    var r1 := [':', '"'] + r2;
    assert r1[2..] == r2;
  }

  lemma MemberLayout(fd: Field, tail: string)
    ensures Member(fd) + tail == ['"'] + (Escape(fd.0) + ['"'] + ([':', '"'] + (Escape(fd.1) + ['"'] + tail)))
  {
    Regroup(Escape(fd.0), Escape(fd.1), tail);
  }

  lemma Regroup(a: string, b: string, tail: string)
    ensures ['"'] + a + ['"', ':', '"'] + b + ['"'] + tail == ['"'] + (a + ['"'] + ([':', '"'] + (b + ['"'] + tail)))
  {
    assert ['"', ':', '"'] == ['"'] + [':', '"'];
  }

  lemma ReadMemberRoundTrip(fd: Field, tail: string)
    ensures ReadMember(Member(fd) + tail) == Some((fd, tail))
  {
    var r2 := Escape(fd.1) + ['"'] + tail;
    var r1 := [':', '"'] + r2;
    var t1 := Escape(fd.0) + ['"'] + r1;
    var t := Member(fd) + tail;
    MemberLayout(fd, tail);
    assert t[1..] == t1;
    ReadEscaped(fd.0, r1);
    ReadEscaped(fd.1, tail);
    ReadMemberSteps(t, fd, r2, tail);
  }

  lemma MembersCons(fs: seq<Field>)
    requires |fs| > 1
    ensures Members(fs) + ['}'] == Member(fs[0]) + ([','] + (Members(fs[1..]) + ['}']))
  {
  }

  lemma ReadMembersCons(t: string, fd: Field, more: string, fs: seq<Field>)
    requires ReadMember(t) == Some((fd, [','] + more))
    requires ReadMembers(more) == Some(fs)
    ensures ReadMembers(t) == Some([fd] + fs)
  {
    var rest := [','] + more;
    assert rest[0] == ',';
    assert rest[1..] == more;
  }

  lemma {:induction false} ReadMembersRoundTrip(fs: seq<Field>)
    requires fs != []
    ensures ReadMembers(Members(fs) + ['}']) == Some(fs)
    decreases |fs|
  {
    if |fs| == 1 {
      assert Members(fs) == Member(fs[0]);
      ReadMemberRoundTrip(fs[0], ['}']);
      assert [fs[0]] == fs;
    } else {
      var more := Members(fs[1..]) + ['}'];
      MembersCons(fs);
      ReadMemberRoundTrip(fs[0], [','] + more);
      ReadMembersRoundTrip(fs[1..]);
      ReadMembersCons(Members(fs) + ['}'], fs[0], more, fs[1..]);
      assert [fs[0]] + fs[1..] == fs;
    }
  }

  /** A brace followed by members that read back parses to those members. */
  lemma ParseObject(t: string, fs: seq<Field>)
    requires |t| >= 1 && t[0] == '{' && t != ['{', '}']
    requires ReadMembers(t[1..]) == Some(fs)
    ensures Parse(t) == Some(fs)
  {
  }

  /** Parsing inverts stringifying: the encoding is injective. */
  lemma ParseStringify(fs: seq<Field>)
    ensures Parse(Stringify(fs)) == Some(fs)
  {
    if fs != [] {
      var t := Stringify(fs);
      assert t[1..] == Members(fs) + ['}'];
      ReadMembersRoundTrip(fs);
      ParseObject(t, fs);
    }
  }

  /** Value of member `name` as JSON.parse leaves it: when a name repeats, the
      last occurrence wins. */
  function Lookup(fs: seq<Field>, name: string): (r: Option<string>)
    ensures r.Some? <==> exists k :: 0 <= k < |fs| && fs[k].0 == name
    ensures r.Some? ==> exists k :: 0 <= k < |fs| && fs[k] == (name, r.value)
                          && forall j :: k < j < |fs| ==> fs[j].0 != name
  {
    if fs == [] then None
    else if fs[|fs| - 1].0 == name then Some(fs[|fs| - 1].1)
    else
      var r := Lookup(fs[..|fs| - 1], name);
      assert forall k :: 0 <= k < |fs| - 1 ==> fs[..|fs| - 1][k] == fs[k];
      r
  }
}
