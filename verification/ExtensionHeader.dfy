/** The X-A2A-Extensions header: parsing, resolving against the known extensions, printing. */
module ExtensionHeader {
  import opened A2A

  /** An extension's metadata, as far as activation looks at it. */
  datatype Extension = Extension(uri: string, required: bool)

  /** White space as Unicode defines it. */
  predicate IsSpace(c: char) {
    c in {'\t', '\n', '\U{0B}', '\U{0C}', '\r', ' ', '\U{85}', '\U{A0}', '\U{1680}', '\U{2028}', '\U{2029}',
        '\U{202F}', '\U{205F}', '\U{3000}'}
    || '\U{2000}' <= c <= '\U{200A}'
  }

  function TrimLeft(s: string): (r: string)
    ensures r == [] || !IsSpace(r[0])
    ensures |r| <= |s| && r == s[|s| - |r|..]
  {
    if s != [] && IsSpace(s[0]) then TrimLeft(s[1..]) else s
  }

  function TrimRight(s: string): (r: string)
    ensures r == [] || !IsSpace(r[|r| - 1])
    ensures r <= s
  {
    if s != [] && IsSpace(s[|s| - 1]) then TrimRight(s[..|s| - 1]) else s
  }

  function TrimSpace(s: string): string {
    TrimRight(TrimLeft(s))
  }

  /** The pieces between commas; there is always at least one. */
  function Split(s: string): (r: seq<string>)
    ensures r != []
    ensures forall i :: 0 <= i < |r| ==> ',' !in r[i]
  {
    if s == [] then [[]]
    else
      var rest := Split(s[1..]);
      if s[0] == ',' then [[]] + rest else [[s[0]] + rest[0]] + rest[1..]
  }

  function Join(pieces: seq<string>, separator: string): string {
    if pieces == [] then []
    else if |pieces| == 1 then pieces[0]
    else pieces[0] + separator + Join(pieces[1..], separator)
  }

  /** A piece's token: its trimmed text, unless that is empty. */
  function Token(piece: string): seq<string> {
    if TrimSpace(piece) == [] then [] else [TrimSpace(piece)]
  }

  /** The tokens of the pieces, in order. */
  function Tokens(pieces: seq<string>): seq<string> {
    if pieces == [] then [] else Tokens(pieces[..|pieces| - 1]) + Token(pieces[|pieces| - 1])
  }

  function Parse(header: string): seq<string> {
    Tokens(Split(header))
  }

  function Resolve(available: map<string, Extension>, requested: seq<string>): seq<Extension> {
    if requested == [] then []
    else
      var n := |requested| - 1;
      Resolve(available, requested[..n]) + if requested[n] in available then [available[requested[n]]] else []
  }

  function UrisOf(extensions: seq<Extension>): seq<string> {
    if extensions == [] then [] else UrisOf(extensions[..|extensions| - 1]) + [extensions[|extensions| - 1].uri]
  }

  function Format(extensions: seq<Extension>): string {
    Join(UrisOf(extensions), ", ")
  }

  // ------------------------------------------------------------------------------ the loops

  lemma TokensSnoc(pieces: seq<string>, piece: string)
    ensures Tokens(pieces + [piece]) == Tokens(pieces) + Token(piece)
  {
    hide Token;
    assert (pieces + [piece])[..|pieces|] == pieces;
  }

  lemma {:induction false} TokensConcat(a: seq<string>, b: seq<string>)
    ensures Tokens(a + b) == Tokens(a) + Tokens(b)
  {
    hide Tokens, Token;
    if b == [] {
      NoTokens();
      assert a + b == a;
    } else {
      var n := |b| - 1;
      TokensConcat(a, b[..n]);
      TokensSnoc(b[..n], b[n]);
      TokensSnoc(a + b[..n], b[n]);
      assert b == b[..n] + [b[n]] && a + b == (a + b[..n]) + [b[n]];
    }
  }

  lemma NextToken(pieces: seq<string>, i: nat)
    requires i < |pieces|
    ensures Tokens(pieces[..i + 1]) == Tokens(pieces[..i]) + Token(pieces[i])
  {
    hide Tokens, Token;
    TokensSnoc(pieces[..i], pieces[i]);
    assert pieces[..i + 1] == pieces[..i] + [pieces[i]];
  }

  lemma NoTokens()
    ensures Tokens([]) == []
  {
  }

  method ParseExtensionHeader(header: string) returns (extensions: seq<string>)
    ensures extensions == Parse(header)
  {
    if header == "" {
      EmptyHeader();
      return [];
    }
    hide TrimSpace, Split, Tokens;
    extensions := [];
    var pieces := Split(header);
    NoTokens();
    for i := 0 to |pieces|
      invariant extensions == Tokens(pieces[..i])
    {
      NextToken(pieces, i);
      var ext := TrimSpace(pieces[i]);
      if ext != "" {
        extensions := extensions + [ext];
      }
    }
    assert pieces[..|pieces|] == pieces;
  }

  method ResolveActiveExtensions(available: map<string, Extension>, requestedURIs: seq<string>)
    returns (active: seq<Extension>)
    ensures active == Resolve(available, requestedURIs)
  {
    active := [];
    for i := 0 to |requestedURIs|
      invariant active == Resolve(available, requestedURIs[..i])
    {
      assert requestedURIs[..i + 1][..i] == requestedURIs[..i];
      if requestedURIs[i] in available {
        active := active + [available[requestedURIs[i]]];
      }
    }
    assert requestedURIs[..|requestedURIs|] == requestedURIs;
  }

  method FormatExtensionHeader(extensions: seq<Extension>) returns (header: string)
    ensures header == Format(extensions)
  {
    var uris: seq<string> := [];
    for i := 0 to |extensions|
      invariant uris == UrisOf(extensions[..i])
    {
      assert extensions[..i + 1][..i] == extensions[..i];
      uris := uris + [extensions[i].uri];
    }
    assert extensions[..|extensions|] == extensions;
    header := Join(uris, ", ");
  }

  /** Names a required extension that is not active, if there is one. */
  method ValidateRequiredExtensions(available: map<string, Extension>, activeURIs: seq<string>)
    returns (missing: Option<string>)
    ensures missing.Some? ==>
              missing.value in available && available[missing.value].required && missing.value !in activeURIs
    ensures missing.None? <==> forall uri :: uri in available && available[uri].required ==> uri in activeURIs
  {
    var todo := available.Keys;
    while todo != {}
      invariant todo <= available.Keys
      invariant forall uri :: uri in available && uri !in todo && available[uri].required ==> uri in activeURIs
      decreases |todo|
    {
      var uri :| uri in todo;
      if available[uri].required && uri !in activeURIs {
        return Some(uri);
      }
      todo := todo - {uri};
    }
    return None;
  }

  // ------------------------------------------------------------------------------ the theorems

  /** A token that survives a header: not empty, no comma, no white space at its ends. */
  predicate Clean(t: string) {
    t != [] && ',' !in t && !IsSpace(t[0]) && !IsSpace(t[|t| - 1])
  }

  ghost predicate AllClean(tokens: seq<string>) {
    forall i :: 0 <= i < |tokens| ==> Clean(tokens[i])
  }

  lemma CleanToken(t: string)
    requires Clean(t)
    ensures Tokens([t]) == [t]
  {
    OneToken(t);
    assert TrimSpace(t) == t;
  }

  lemma TrimmedIsClean(s: string)
    requires ',' !in s && TrimSpace(s) != []
    ensures Clean(TrimSpace(s))
  {
    var l := TrimLeft(s);
    var r := TrimRight(l);
    assert r[0] == l[0];
    assert forall c :: c in l ==> c in s;
    assert forall c :: c in r ==> c in l;
  }

  lemma {:induction false} TokensAreClean(pieces: seq<string>)
    requires forall i :: 0 <= i < |pieces| ==> ',' !in pieces[i]
    ensures AllClean(Tokens(pieces))
  {
    hide TrimSpace, Clean;
    if pieces == [] {
    } else {
      var n := |pieces| - 1;
      TokensAreClean(pieces[..n]);
      if TrimSpace(pieces[n]) != [] {
        TrimmedIsClean(pieces[n]);
      }
    }
  }

  /** Whatever the header, parsing yields clean tokens only. */
  lemma ParsedIsClean(header: string)
    ensures AllClean(Parse(header))
  {
    TokensAreClean(Split(header));
  }

  lemma {:induction false} SplitWithoutComma(s: string)
    requires ',' !in s
    ensures Split(s) == [s]
  {
    if s == [] {
    } else {
      SplitWithoutComma(s[1..]);
      assert [s[0]] + s[1..] == s;
    }
  }

  lemma {:induction false} SplitAtComma(s: string, rest: string)
    requires ',' !in s
    ensures Split(s + [','] + rest) == [s] + Split(rest)
  {
    if s == [] {
      assert ([] + [','] + rest)[1..] == rest;
    } else {
      SplitAtComma(s[1..], rest);
      assert (s + [','] + rest)[1..] == s[1..] + [','] + rest;
      assert [s[0]] + s[1..] == s;
      assert ([s[1..]] + Split(rest))[1..] == Split(rest);
    }
  }

  lemma BlankSplit(s: string)
    ensures Split(s) != [] && Split([' '] + s) == [[' '] + Split(s)[0]] + Split(s)[1..]
  {
    assert ([' '] + s)[1..] == s;
  }

  lemma BlankToken(piece: string)
    ensures Token([' '] + piece) == Token(piece)
  {
    assert ([' '] + piece)[1..] == piece;
  }

  /** A leading blank makes no difference. */
  lemma BlankIgnored(s: string)
    ensures Tokens(Split([' '] + s)) == Tokens(Split(s))
  {
    hide Tokens, Split, Token;
    BlankSplit(s);
    var pieces := Split(s);
    var first, rest := pieces[0], pieces[1..];
    BlankToken(first);
    OneToken(first);
    OneToken([' '] + first);
    TokensConcat([first], rest);
    TokensConcat([[' '] + first], rest);
    assert [first] + rest == pieces;
  }

  lemma OneToken(piece: string)
    ensures Tokens([piece]) == Token(piece)
  {
    hide Token;
    assert [piece][..0] == [];
  }

  /** Printing clean tokens and parsing them again gives them back, duplicates and order included. */
  lemma {:induction false} JoinThenParse(tokens: seq<string>)
    requires AllClean(tokens)
    ensures Parse(Join(tokens, ", ")) == tokens
  {
    hide Tokens, Split, TrimSpace;
    if tokens == [] {
      EmptyHeader();
    } else {
      var first, rest := tokens[0], tokens[1..];
      assert Clean(first);
      CleanToken(first);
      if rest == [] {
        SplitWithoutComma(first);
      } else {
        JoinThenParse(rest);
        var tail := Join(rest, ", ");
        assert Join(tokens, ", ") == first + [','] + ([' '] + tail);
        SplitAtComma(first, [' '] + tail);
        BlankIgnored(tail);
        TokensConcat([first], Split([' '] + tail));
      }
    }
  }

  // --------------------------------------------------------------------- what trimming and parsing keep

  /** White space by value: these characters are, and these are not. */
  lemma SpaceTable()
    ensures IsSpace(' ') && IsSpace('\t') && IsSpace('\n') && IsSpace('\r') && IsSpace('\U{0B}') && IsSpace('\U{0C}')
    ensures IsSpace('\U{85}') && IsSpace('\U{A0}') && IsSpace('\U{1680}') && IsSpace('\U{2000}') && IsSpace('\U{200A}')
    ensures IsSpace('\U{2028}') && IsSpace('\U{2029}') && IsSpace('\U{202F}') && IsSpace('\U{205F}')
    ensures IsSpace('\U{3000}')
    ensures forall c :: '!' <= c <= '~' ==> !IsSpace(c)
    ensures !IsSpace('\U{200B}') && !IsSpace('\U{FEFF}') && !IsSpace(0 as char)
  {
  }

  ghost predicate AllSpace(s: string) {
    forall i :: 0 <= i < |s| ==> IsSpace(s[i])
  }

  /** Nothing, or text without white space at its ends. */
  ghost predicate Tight(s: string) {
    s == [] || (!IsSpace(s[0]) && !IsSpace(s[|s| - 1]))
  }

  lemma {:induction false} TrimLeftPadding(l: string, s: string)
    requires AllSpace(l) && (s == [] || !IsSpace(s[0]))
    ensures TrimLeft(l + s) == s
  {
    if l == [] {
      assert l + s == s;
    } else {
      assert (l + s)[0] == l[0] && (l + s)[1..] == l[1..] + s;
      TrimLeftPadding(l[1..], s);
    }
  }

  lemma {:induction false} TrimRightPadding(s: string, r: string)
    requires AllSpace(r) && (s == [] || !IsSpace(s[|s| - 1]))
    ensures TrimRight(s + r) == s
  {
    if r == [] {
      assert s + r == s;
    } else {
      var n := |r| - 1;
      assert (s + r)[|s + r| - 1] == r[n] && (s + r)[..|s + r| - 1] == s + r[..n];
      TrimRightPadding(s, r[..n]);
    }
  }

  /** Trimming takes the white space around a text away and nothing else; of white space alone it leaves nothing. */
  lemma TrimKeepsCore(l: string, core: string, r: string)
    requires AllSpace(l) && Tight(core) && AllSpace(r)
    ensures TrimSpace(l + core + r) == core
  {
    hide IsSpace;
    if core == [] {
      assert l + core + r == (l + r) + [];
      assert AllSpace(l + r);
      TrimLeftPadding(l + r, []);
      assert TrimRight([]) == [];
    } else {
      assert l + core + r == l + (core + r);
      TrimLeftPadding(l, core + r);
      TrimRightPadding(core, r);
    }
  }

  /** What may stand between two commas: white space, or a token with white space around it. */
  datatype Piece = Blank(space: string) | Padded(left: string, token: string, right: string)

  ghost predicate GoodPiece(p: Piece) {
    match p
    case Blank(space) => AllSpace(space) && ',' !in space
    case Padded(left, token, right) =>
      AllSpace(left) && Clean(token) && AllSpace(right) && ',' !in left && ',' !in right
  }

  function TextOf(p: Piece): string {
    match p
    case Blank(space) => space
    case Padded(left, token, right) => left + token + right
  }

  function TextsOf(pieces: seq<Piece>): (r: seq<string>)
    ensures |r| == |pieces|
  {
    if pieces == [] then [] else [TextOf(pieces[0])] + TextsOf(pieces[1..])
  }

  /** The tokens among the pieces, in order. */
  function TokensOf(pieces: seq<Piece>): seq<string> {
    if pieces == [] then []
    else (if pieces[0].Padded? then [pieces[0].token] else []) + TokensOf(pieces[1..])
  }

  lemma PieceToken(p: Piece)
    requires GoodPiece(p)
    ensures Tokens([TextOf(p)]) == TokensOf([p]) && ',' !in TextOf(p)
  {
    hide IsSpace, TrimSpace, Tokens, AllSpace;
    OneToken(TextOf(p));
    match p {
      case Blank(space) =>
        assert space == space + [] + [];
        NoSpace();
        TrimKeepsCore(space, [], []);
      case Padded(left, token, right) =>
        TrimKeepsCore(left, token, right);
        assert TokensOf([p]) == [token];
    }
  }

  lemma NoSpace()
    ensures AllSpace([])
  {
  }

  /**
    What a header is parsed to: of any pieces between commas, exactly the tokens in order, whatever white space is
    around them and however many pieces are blank.
   */
  lemma {:induction false} ParseFindsTokens(pieces: seq<Piece>)
    requires pieces != [] && forall i :: 0 <= i < |pieces| ==> GoodPiece(pieces[i])
    ensures Parse(Join(TextsOf(pieces), ",")) == TokensOf(pieces)
  {
    hide Tokens, Split, GoodPiece, TextOf;
    var first, rest := pieces[0], pieces[1..];
    var text := TextOf(first);
    PieceToken(first);
    assert TokensOf(pieces) == TokensOf([first]) + TokensOf(rest);
    if rest == [] {
      assert TextsOf(pieces) == [text];
      SplitWithoutComma(text);
    } else {
      ParseFindsTokens(rest);
      var tail := Join(TextsOf(rest), ",");
      assert TextsOf(pieces) == [text] + TextsOf(rest);
      assert Join(TextsOf(pieces), ",") == text + [','] + tail;
      SplitAtComma(text, tail);
      TokensConcat([text], Split(tail));
    }
  }

  // -------------------------------------------------------------------- what resolving and printing keep

  lemma {:induction false} ResolveConcat(available: map<string, Extension>, a: seq<string>, b: seq<string>)
    ensures Resolve(available, a + b) == Resolve(available, a) + Resolve(available, b)
  {
    hide Resolve;
    if b == [] {
      assert a + b == a;
      ResolveNothing(available);
    } else {
      var n := |b| - 1;
      ResolveConcat(available, a, b[..n]);
      ResolveNext(available, b[..n], b[n]);
      ResolveNext(available, a + b[..n], b[n]);
      assert b == b[..n] + [b[n]] && a + b == (a + b[..n]) + [b[n]];
    }
  }

  lemma ResolveNothing(available: map<string, Extension>)
    ensures Resolve(available, []) == []
  {
  }

  lemma ResolveNext(available: map<string, Extension>, requested: seq<string>, uri: string)
    ensures Resolve(available, requested + [uri])
         == Resolve(available, requested) + if uri in available then [available[uri]] else []
  {
    assert (requested + [uri])[..|requested|] == requested;
  }

  /** A single request resolves to its extension, or to nothing. */
  lemma ResolveOne(available: map<string, Extension>, uri: string)
    ensures Resolve(available, [uri]) == if uri in available then [available[uri]] else []
  {
    assert [uri][..0] == [];
  }

  /** Printing puts the URIs of the extensions in order, a comma and a blank between any two. */
  lemma FormatNext(extensions: seq<Extension>, e: Extension)
    ensures Format([]) == "" && Format([e]) == e.uri
    ensures extensions != [] ==> Format(extensions + [e]) == Format(extensions) + ", " + e.uri
  {
    assert [e][..0] == [];
    assert (extensions + [e])[..|extensions|] == extensions;
    if extensions != [] {
      JoinNext(UrisOf(extensions), e.uri, ", ");
    }
  }

  lemma {:induction false} JoinNext(pieces: seq<string>, piece: string, separator: string)
    requires pieces != []
    ensures Join(pieces + [piece], separator) == Join(pieces, separator) + separator + piece
  {
    assert (pieces + [piece])[1..] == pieces[1..] + [piece];
    if |pieces| > 1 {
      JoinNext(pieces[1..], piece, separator);
    }
  }

  lemma EmptyHeader()
    ensures Parse([]) == []
  {
    assert Split([]) == [[]] && TrimSpace([]) == [];
  }

  /** The requested URIs that name a known extension, duplicates and order kept. */
  function Known(available: map<string, Extension>, requested: seq<string>): seq<string> {
    if requested == [] then []
    else
      var n := |requested| - 1;
      Known(available, requested[..n]) + if requested[n] in available then [requested[n]] else []
  }

  /** The table files each extension under its own URI. */
  ghost predicate KeyedByUri(available: map<string, Extension>) {
    forall uri :: uri in available ==> available[uri].uri == uri
  }

  lemma {:induction false} ResolvedUris(available: map<string, Extension>, requested: seq<string>)
    requires KeyedByUri(available) && AllClean(requested)
    ensures UrisOf(Resolve(available, requested)) == Known(available, requested)
    ensures AllClean(Known(available, requested))
  {
    if requested == [] {
    } else {
      var n := |requested| - 1;
      ResolvedUris(available, requested[..n]);
      if requested[n] in available {
        var r := Resolve(available, requested);
        assert r[..|r| - 1] == Resolve(available, requested[..n]);
      } else {
        assert Resolve(available, requested) == Resolve(available, requested[..n]);
        assert Known(available, requested) == Known(available, requested[..n]);
      }
    }
  }

  /**
    The response header says, to anyone who parses it, exactly which requested extensions are known: for every header.
   */
  lemma HeaderRoundTrip(available: map<string, Extension>, header: string)
    requires KeyedByUri(available)
    ensures Parse(Format(Resolve(available, Parse(header)))) == Known(available, Parse(header))
  {
    ParsedIsClean(header);
    ResolvedUris(available, Parse(header));
    JoinThenParse(Known(available, Parse(header)));
  }
}
