/** Rewriting of named query parameters to positional ones (prepareQueryNamed in
    sqlw/postgres/dml.go), for every order in which the parameter map may be ranged over. */
module NamedQuery {
  import opened Text

  // -------------------------------------------------------------- the rewriting

  /** ":name" replaced by "$position", one key after the other, from key number i on. */
  ghost function RewriteFrom(query: string, order: seq<string>, i: nat): string
    requires i <= |order|
    decreases |order| - i
  {
    if i == |order| then query
    else RewriteFrom(ReplaceAll(query, ":" + order[i], "$" + Decimal(i + 1)), order, i + 1)
  }

  method PrepareQueryNamed<V>(query: string, param: map<string, V>, order: seq<string>)
    returns (result: string, args: seq<V>)
    requires forall k :: k in order ==> k in param
    ensures result == RewriteFrom(query, order, 0)
    ensures |args| == |order| && forall i :: 0 <= i < |order| ==> args[i] == param[order[i]]
  {
    result := query;
    args := [];
    var count := 1;
    var n := 0;
    while n < |order|
      invariant 0 <= n <= |order| && count == n + 1
      invariant RewriteFrom(result, order, n) == RewriteFrom(query, order, 0)
      invariant |args| == n && forall i :: 0 <= i < n ==> args[i] == param[order[i]]
    {
      var key := order[n];
      result := ReplaceAll(result, ":" + key, "$" + Decimal(count));
      args := args + [param[key]];
      count := count + 1;
      n := n + 1;
    }
  }

  /** The placeholders are those of PostgreSQL. */
  lemma FirstPlaceholder()
    ensures RewriteFrom("i=:id", ["id"], 0) == "i=$1"
  {
    var key, new_ := ":" + "id", "$" + Decimal(1);
    assert key == ":id" && new_ == "$1";
    assert ":id"[..3] == ":id" && ":id"[3..] == "";
    assert ReplaceAll(":id", key, new_) == "$1";
    assert "i=:id" == "i=" + ":id";
    ReplaceAllSkips("i=", ":id", key, new_);
    assert RewriteFrom("i=:id", ["id"], 0) == RewriteFrom("i=" + "$1", ["id"], 1);
  }

  // --------------------------------------------------------- queries as tokens

  predicate IsNameChar(c: char) {
    'a' <= c <= 'z' || 'A' <= c <= 'Z' || '0' <= c <= '9' || c == '_'
  }

  predicate IsName(s: string) { forall i :: 0 <= i < |s| ==> IsNameChar(s[i]) }

  predicate IsIdentifier(s: string) { s != "" && IsName(s) }

  datatype Token = Lit(c: char) | Hole(name: string)

  /** The longest run of name characters at the front of a text. */
  function NameRun(s: string): (n: nat)
    ensures n <= |s| && (forall i :: 0 <= i < n ==> IsNameChar(s[i])) && (n < |s| ==> !IsNameChar(s[n]))
  {
    if s == "" || !IsNameChar(s[0]) then 0 else 1 + NameRun(s[1..])
  }

  /** A query read as text with maximal ":name" placeholders. */
  function Tokens(query: string): seq<Token>
    decreases |query|
  {
    if query == "" then []
    else if query[0] == ':' then
      var n := NameRun(query[1..]);
      [Hole(query[1..][..n])] + Tokens(query[1..][n..])
    else [Lit(query[0])] + Tokens(query[1..])
  }

  function TokenText(t: Token): string { match t case Lit(c) => [c] case Hole(name) => ":" + name }

  function Render(tokens: seq<Token>): string {
    if tokens == [] then ""
    else TokenText(tokens[0]) + Render(tokens[1..])
  }

  /** Text carries no ':', and holes hold maximal names. */
  ghost predicate Separated(tokens: seq<Token>) {
    && (forall i :: 0 <= i < |tokens| ==> match tokens[i] case Lit(c) => c != ':' case Hole(n) => IsName(n))
    && (forall i :: 0 <= i < |tokens| - 1 && tokens[i].Hole? && tokens[i + 1].Lit? ==> !IsNameChar(tokens[i + 1].c))
  }

  lemma RenderCons(t: Token, rest: seq<Token>)
    ensures Render([t] + rest) == TokenText(t) + Render(rest)
  {
    assert ([t] + rest)[1..] == rest;
  }

  lemma {:induction false} TokensRender(query: string)
    ensures Render(Tokens(query)) == query
    decreases |query|
  {
    hide Render;
    if query == "" {
      assert Render([]) == "" by { RenderNone(); }
    } else if query[0] == ':' {
      var n := NameRun(query[1..]);
      var name, rest := query[1..][..n], query[1..][n..];
      TokensRender(rest);
      RenderCons(Hole(name), Tokens(rest));
      hide Tokens;
      assert query == (":" + name) + rest;
    } else {
      TokensRender(query[1..]);
      RenderCons(Lit(query[0]), Tokens(query[1..]));
    }
  }

  lemma RenderNone()
    ensures Render([]) == ""
  {}

  lemma FirstToken(query: string)
    requires query != ""
    ensures Tokens(query) != []
    ensures if query[0] == ':' then Tokens(query)[0].Hole? else Tokens(query)[0] == Lit(query[0])
  {}

  lemma {:induction false} TokensSeparated(query: string)
    ensures Separated(Tokens(query))
    decreases |query|
  {
    var ts := Tokens(query);
    if query == "" {
    } else if query[0] == ':' {
      var n := NameRun(query[1..]);
      var rest := query[1..][n..];
      assert ts[1..] == Tokens(rest);
      TokensSeparated(rest);
      if rest != "" {
        FirstToken(rest);
      }
    } else {
      assert ts[1..] == Tokens(query[1..]);
      TokensSeparated(query[1..]);
    }
  }

  // ------------------------------------------------- one pass over the tokens

  function Lits(s: string): seq<Token> {
    if s == "" then [] else [Lit(s[0])] + Lits(s[1..])
  }

  /** One ReplaceAll: a hole whose name starts with the key is cut there. */
  function PassToken(t: Token, key: string, new_: string): seq<Token> {
    if t.Hole? && HasPrefix(t.name, key) then Lits(new_ + t.name[|key|..]) else [t]
  }

  function Pass(tokens: seq<Token>, key: string, new_: string): seq<Token> {
    if tokens == [] then [] else PassToken(tokens[0], key, new_) + Pass(tokens[1..], key, new_)
  }

  lemma {:induction false} RenderLits(s: string, tokens: seq<Token>)
    ensures Render(Lits(s) + tokens) == s + Render(tokens)
  {
    hide Render;
    if s == "" {
      assert Lits(s) + tokens == tokens;
    } else {
      RenderLits(s[1..], tokens);
      RenderCons(Lit(s[0]), Lits(s[1..]) + tokens);
      assert Lits(s) == [Lit(s[0])] + Lits(s[1..]);
      hide Lits;
      Assoc([Lit(s[0])], Lits(s[1..]), tokens);
      Assoc([s[0]], s[1..], Render(tokens));
      assert [s[0]] + s[1..] == s;
    }
  }

  lemma SeparatedTail(tokens: seq<Token>)
    requires Separated(tokens) && tokens != []
    ensures Separated(tokens[1..])
  {}

  /** What follows a hole cannot extend its name. */
  lemma NextIsNoName(tokens: seq<Token>)
    requires Separated(tokens) && tokens != [] && tokens[0].Hole?
    ensures var rest := Render(tokens[1..]); rest == "" || !IsNameChar(rest[0])
  {
    var ts := tokens[1..];
    if ts != [] {
      assert ts[0] == tokens[1];
      if ts[0].Lit? {
        assert !IsNameChar(tokens[0 + 1].c);
      }
    }
  }

  /** A global string replacement acts on the tokens, hole by hole. */
  lemma {:induction false} ReplaceIsPass(tokens: seq<Token>, key: string, new_: string)
    requires Separated(tokens) && IsIdentifier(key)
    ensures ReplaceAll(Render(tokens), ":" + key, new_) == Render(Pass(tokens, key, new_))
    decreases |tokens|
  {
    if tokens != [] {
      SeparatedTail(tokens);
      ReplaceIsPass(tokens[1..], key, new_);
      TokenSplit(tokens);
      ReplaceFirst(tokens[0], Render(tokens[1..]), key, new_);
      RenderFirst(tokens[0], Pass(tokens[1..], key, new_), key, new_);
    }
  }

  lemma TokenSplit(tokens: seq<Token>)
    requires Separated(tokens) && tokens != []
    ensures var rest := Render(tokens[1..]);
            (if tokens[0].Hole? then IsName(tokens[0].name) && (rest == "" || !IsNameChar(rest[0]))
              else tokens[0].c != ':')
            && Render(tokens) == TokenText(tokens[0]) + rest
  {
    if tokens[0].Hole? {
      NextIsNoName(tokens);
    }
  }

  lemma RenderFirst(t: Token, rest: seq<Token>, key: string, new_: string)
    ensures Render(PassToken(t, key, new_) + rest) == Replacement(t, key, new_) + Render(rest)
  {
    if t.Hole? && HasPrefix(t.name, key) {
      RenderLits(new_ + t.name[|key|..], rest);
    } else {
      RenderCons(t, rest);
    }
  }

  function Replacement(t: Token, key: string, new_: string): string {
    if t.Hole? && HasPrefix(t.name, key) then new_ + t.name[|key|..] else TokenText(t)
  }

  lemma ReplaceFirst(t: Token, rest: string, key: string, new_: string)
    requires IsIdentifier(key)
    requires if t.Hole? then IsName(t.name) && (rest == "" || !IsNameChar(rest[0])) else t.c != ':'
    ensures ReplaceAll(TokenText(t) + rest, ":" + key, new_)
              == Replacement(t, key, new_) + ReplaceAll(rest, ":" + key, new_)
  {
    hide ReplaceAll;
    hide IsNameChar;
    if t.Lit? {
      ReplaceAllSkips([t.c], rest, ":" + key, new_);
    } else {
      HoleMatches(t.name, rest, key);
      if HasPrefix(t.name, key) {
        ReplaceHole(t.name, rest, key, new_);
      } else {
        var s := ":" + t.name + rest;
        Cuts(":", t.name, rest);
        ReplaceAllMiss(s, ":" + key, new_);
        ReplaceAllSkips(t.name, rest, ":" + key, new_);
        Assoc(":", t.name, ReplaceAll(rest, ":" + key, new_));
      }
    }
  }

  lemma ReplaceHole(name: string, rest: string, key: string, new_: string)
    requires HasPrefix(name, key) && HasPrefix(":" + name + rest, ":" + key) && ':' !in name
    ensures ReplaceAll(":" + name + rest, ":" + key, new_) == new_ + name[|key|..] + ReplaceAll(rest, ":" + key, new_)
  {
    hide ReplaceAll;
    var sought, s, tail := ":" + key, ":" + name + rest, name[|key|..];
    assert s[|sought|..] == tail + rest;
    ReplaceAllHit(s, sought, new_);
    ReplaceAllSkips(tail, rest, sought, new_);
    Assoc(new_, tail, ReplaceAll(rest, sought, new_));
  }

  lemma HoleMatches(name: string, rest: string, key: string)
    requires IsName(name) && IsIdentifier(key) && (rest == "" || !IsNameChar(rest[0]))
    ensures HasPrefix(":" + name + rest, ":" + key) <==> HasPrefix(name, key)
    ensures forall i :: 0 <= i < |name| ==> name[i] != ':'
  {
    var s := ":" + name + rest;
    if HasPrefix(name, key) {
      assert s[..1 + |key|] == ":" + name[..|key|];
    }
    if HasPrefix(s, ":" + key) {
      assert forall j :: 1 <= j <= |key| ==> s[j] == s[..1 + |key|][j] == key[j - 1];
      assert rest != "" ==> s[1 + |name|] == rest[0];
      assert |key| <= |name|;
      forall i | 0 <= i < |key| ensures name[..|key|][i] == key[i] {
        assert s[i + 1] == name[i];
      }
    }
  }

  // ------------------------------------------------------- all passes together

  ghost function PassAll(tokens: seq<Token>, order: seq<string>, i: nat): seq<Token>
    requires i <= |order|
    decreases |order| - i
  {
    if i == |order| then tokens
    else PassAll(Pass(tokens, order[i], "$" + Decimal(i + 1)), order, i + 1)
  }

  lemma {:induction false} LitsAreText(s: string)
    requires forall i :: 0 <= i < |s| ==> s[i] != ':'
    ensures Separated(Lits(s)) && |Lits(s)| == |s|
    ensures forall i :: 0 <= i < |s| ==> Lits(s)[i] == Lit(s[i])
  {
    if s != "" {
      LitsAreText(s[1..]);
    }
  }

  lemma {:induction false} PassSeparated(tokens: seq<Token>, key: string, n: nat)
    requires Separated(tokens) && IsIdentifier(key)
    ensures var out := Pass(tokens, key, "$" + Decimal(n));
            Separated(out)
            && (tokens != [] && tokens[0].Lit? ==> out != [] && out[0] == tokens[0])
            && (tokens != [] && tokens[0].Hole? ==> out != [] && (out[0].Hole? || out[0] == Lit('$')))
            && (tokens == [] ==> out == [])
  {
    if tokens != [] {
      SeparatedTail(tokens);
      var new_ := "$" + Decimal(n);
      var rest := Pass(tokens[1..], key, new_);
      PassSeparated(tokens[1..], key, n);
      var t := tokens[0];
      if t.Hole? && HasPrefix(t.name, key) {
        LitsAreText(new_ + t.name[|key|..]);
      } else {
        var out := [t] + rest;
        assert out[1..] == rest;
        if t.Hole? && rest != [] && rest[0].Lit? {
          assert tokens[1] == tokens[1..][0];
          assert !IsNameChar(rest[0].c);
        }
      }
    }
  }

  lemma {:induction false} RewriteIsPassAll(tokens: seq<Token>, order: seq<string>, i: nat)
    requires Separated(tokens) && i <= |order| && forall k :: k in order ==> IsIdentifier(k)
    ensures RewriteFrom(Render(tokens), order, i) == Render(PassAll(tokens, order, i))
    decreases |order| - i
  {
    if i < |order| {
      ReplaceIsPass(tokens, order[i], "$" + Decimal(i + 1));
      PassSeparated(tokens, order[i], i + 1);
      RewriteIsPassAll(Pass(tokens, order[i], "$" + Decimal(i + 1)), order, i + 1);
    }
  }

  /** The number of the first key, from number i on, that a name starts with. */
  function FirstPrefix(order: seq<string>, name: string, i: nat): (r: Option<nat>)
    requires i <= |order|
    ensures r.Some? ==> i <= r.value < |order| && HasPrefix(name, order[r.value])
                        && forall j :: i <= j < r.value ==> !HasPrefix(name, order[j])
    ensures r.None? ==> forall j :: i <= j < |order| ==> !HasPrefix(name, order[j])
    decreases |order| - i
  {
    if i == |order| then None
    else if HasPrefix(name, order[i]) then Some(i)
    else FirstPrefix(order, name, i + 1)
  }

  /** What becomes of one token: the first key that a hole's name starts with takes it. */
  function Resolved(t: Token, order: seq<string>, i: nat): seq<Token>
    requires i <= |order|
  {
    if t.Lit? then [t]
    else
      match FirstPrefix(order, t.name, i)
      case None => [t]
      case Some(j) => Lits("$" + Decimal(j + 1) + t.name[|order[j]|..])
  }

  function ResolvedAll(tokens: seq<Token>, order: seq<string>, i: nat): seq<Token>
    requires i <= |order|
  {
    if tokens == [] then [] else Resolved(tokens[0], order, i) + ResolvedAll(tokens[1..], order, i)
  }

  lemma {:induction false} PassConcat(a: seq<Token>, b: seq<Token>, key: string, new_: string)
    ensures Pass(a + b, key, new_) == Pass(a, key, new_) + Pass(b, key, new_)
  {
    if a == [] {
      assert a + b == b;
    } else {
      assert (a + b)[1..] == a[1..] + b;
      PassConcat(a[1..], b, key, new_);
    }
  }

  lemma {:induction false} PassAllConcat(a: seq<Token>, b: seq<Token>, order: seq<string>, i: nat)
    requires i <= |order|
    ensures PassAll(a + b, order, i) == PassAll(a, order, i) + PassAll(b, order, i)
    decreases |order| - i
  {
    if i < |order| {
      var key, new_ := order[i], "$" + Decimal(i + 1);
      PassConcat(a, b, key, new_);
      PassAllConcat(Pass(a, key, new_), Pass(b, key, new_), order, i + 1);
    }
  }

  lemma {:induction false} PassKeepsLits(ts: seq<Token>, key: string, new_: string)
    requires forall i :: 0 <= i < |ts| ==> ts[i].Lit?
    ensures Pass(ts, key, new_) == ts
  {
    if ts != [] {
      PassKeepsLits(ts[1..], key, new_);
    }
  }

  lemma {:induction false} PassAllKeepsLits(ts: seq<Token>, order: seq<string>, i: nat)
    requires i <= |order| && forall k :: 0 <= k < |ts| ==> ts[k].Lit?
    ensures PassAll(ts, order, i) == ts
    decreases |order| - i
  {
    if i < |order| {
      PassKeepsLits(ts, order[i], "$" + Decimal(i + 1));
      PassAllKeepsLits(ts, order, i + 1);
    }
  }

  lemma {:induction false} LitsOnly(s: string)
    ensures forall i :: 0 <= i < |Lits(s)| ==> Lits(s)[i].Lit?
  {
    if s != "" {
      LitsOnly(s[1..]);
    }
  }

  lemma {:induction false} PassAllToken(t: Token, order: seq<string>, i: nat)
    requires i <= |order|
    ensures PassAll([t], order, i) == Resolved(t, order, i)
    decreases |order| - i
  {
    if t.Lit? {
      PassAllKeepsLits([t], order, i);
    } else if i < |order| {
      var key, new_ := order[i], "$" + Decimal(i + 1);
      assert Pass([t], key, new_) == PassToken(t, key, new_);
      if HasPrefix(t.name, key) {
        LitsOnly(new_ + t.name[|key|..]);
        PassAllKeepsLits(Lits(new_ + t.name[|key|..]), order, i + 1);
      } else {
        PassAllToken(t, order, i + 1);
      }
    }
  }

  lemma {:induction false} PassAllIsResolved(tokens: seq<Token>, order: seq<string>, i: nat)
    requires i <= |order|
    ensures PassAll(tokens, order, i) == ResolvedAll(tokens, order, i)
  {
    if tokens == [] {
      PassAllKeepsLits([], order, i);
    } else {
      assert tokens == [tokens[0]] + tokens[1..];
      PassAllConcat([tokens[0]], tokens[1..], order, i);
      PassAllToken(tokens[0], order, i);
      PassAllIsResolved(tokens[1..], order, i);
    }
  }

  /** The sequence of global replacements is one simultaneous substitution, in which each name is
      taken by the first key, in iteration order, that it starts with. */
  lemma RewriteIsSubstitution(query: string, order: seq<string>)
    requires forall k :: k in order ==> IsIdentifier(k)
    ensures RewriteFrom(query, order, 0) == Render(ResolvedAll(Tokens(query), order, 0))
  {
    TokensRender(query);
    TokensSeparated(query);
    RewriteIsPassAll(Tokens(query), order, 0);
    PassAllIsResolved(Tokens(query), order, 0);
  }

  // ------------------------------------------------------ what a query means

  /** A query with its arguments in place. */
  datatype Piece<V> = Char(c: char) | Arg(value: V) | NoSuchArg(number: nat)

  function Chars<V>(s: string): seq<Piece<V>> {
    if s == "" then [] else [Char(s[0])] + Chars(s[1..])
  }

  function DigitRun(s: string): (n: nat)
    ensures n <= |s| && AllDigits(s[..n]) && (n < |s| ==> !IsDigit(s[n]))
  {
    if s == "" || !IsDigit(s[0]) then 0 else 1 + DigitRun(s[1..])
  }

  function ArgNumber<V>(number: nat, args: seq<V>): Piece<V> {
    if 1 <= number <= |args| then Arg(args[number - 1]) else NoSuchArg(number)
  }

  /** PostgreSQL's reading of a positional query: "$n", n maximal, is the n-th argument. */
  function Positional<V>(query: string, args: seq<V>): seq<Piece<V>>
    decreases |query|
  {
    if query == "" then []
    else if query[0] == '$' && DigitRun(query[1..]) > 0 then
      var tail := query[1..];
      var n := DigitRun(tail);
      [ArgNumber(DigitsValue(tail[..n]), args)] + Positional(tail[n..], args)
    else [Char(query[0])] + Positional(query[1..], args)
  }

  /** The intended reading of a named query: a maximal ":name" is the parameter of that name, any
      other ':' is text. */
  function NamedTokens<V>(tokens: seq<Token>, param: map<string, V>): seq<Piece<V>> {
    if tokens == [] then []
    else NamedToken(tokens[0], param) + NamedTokens(tokens[1..], param)
  }

  function NamedToken<V>(t: Token, param: map<string, V>): seq<Piece<V>> {
    match t
    case Lit(c) => [Char(c)]
    case Hole(name) => if name in param then [Arg(param[name])] else Chars(":" + name)
  }

  function Named<V>(query: string, param: map<string, V>): seq<Piece<V>> {
    NamedTokens(Tokens(query), param)
  }

  // ---------------------------------------------------- when the two agree

  lemma {:induction false} RunOfDigits(s: string, rest: string)
    requires AllDigits(s) && (rest == "" || !IsDigit(rest[0]))
    ensures DigitRun(s + rest) == |s|
  {
    if s == "" {
      assert s + rest == rest;
    } else {
      assert (s + rest)[1..] == s[1..] + rest;
      RunOfDigits(s[1..], rest);
    }
  }

  lemma PositionalChar<V>(s: string, args: seq<V>)
    requires s != "" && s[0] != '$'
    ensures Positional(s, args) == [Char(s[0])] + Positional(s[1..], args)
  {}

  lemma {:induction false} PlainText<V>(s: string, rest: string, args: seq<V>)
    requires '$' !in s
    ensures Positional(s + rest, args) == Chars(s) + Positional(rest, args)
  {
    hide Positional;
    if s == "" {
      assert s + rest == rest;
    } else {
      assert (s + rest)[1..] == s[1..] + rest;
      PlainText(s[1..], rest, args);
      PositionalChar(s + rest, args);
    }
  }

  lemma PositionalArg<V>(s: string, args: seq<V>)
    requires s != "" && s[0] == '$' && DigitRun(s[1..]) > 0
    ensures var tail := s[1..];
            var n := DigitRun(tail);
            Positional(s, args) == [ArgNumber(DigitsValue(tail[..n]), args)] + Positional(tail[n..], args)
  {
    hide DigitRun;
    hide DigitsValue;
    hide AllDigits;
    hide ArgNumber;
  }

  /** A placeholder not followed by a digit is the argument of its number. */
  lemma PlaceholderRead<V>(n: nat, rest: string, args: seq<V>)
    requires 1 <= n <= |args| && (rest == "" || !IsDigit(rest[0]))
    ensures Positional("$" + Decimal(n) + rest, args) == [Arg(args[n - 1])] + Positional(rest, args)
  {
    hide Positional;
    hide DigitRun;
    var digits := Decimal(n);
    var s := "$" + digits + rest;
    DecimalValue(n);
    RunOfDigits(digits, rest);
    hide Decimal;
    hide DigitsValue;
    Cuts("$", digits, rest);
    assert s[0] == '$';
    PositionalArg(s, args);
  }

  /** No key is a proper prefix of the name of a hole. */
  ghost predicate HoleSafe(t: Token, keys: set<string>) {
    t.Hole? ==> forall k :: k in keys && HasPrefix(t.name, k) ==> k == t.name
  }

  ghost predicate Bound<V>(order: seq<string>, param: map<string, V>, args: seq<V>) {
    && IsOrder(order, param.Keys)
    && |args| == |order| && forall i :: 0 <= i < |order| ==> args[i] == param[order[i]]
  }

  /** Tokens whose text does not start with a digit still do not once they are resolved. */
  lemma ResolvedStart(ts: seq<Token>, order: seq<string>)
    requires ts != [] && ts[0].Lit? ==> !IsDigit(ts[0].c)
    ensures var rest := Render(ResolvedAll(ts, order, 0)); rest == "" || !IsDigit(rest[0])
  {
    if ts != [] {
      var t := ts[0];
      var tail := ResolvedAll(ts[1..], order, 0);
      if t.Lit? {
        assert (([t] + tail)[0]) == t;
      } else {
        match FirstPrefix(order, t.name, 0)
        case None => assert ([t] + tail)[0] == t;
        case Some(j) => RenderLits("$" + Decimal(j + 1) + t.name[|order[j]|..], tail);
      }
    }
  }

  /** A dollar sign of the query's own text with a digit after it, which PostgreSQL takes for an
      argument. */
  predicate DollarDigit(tokens: seq<Token>, i: nat)
    requires i < |tokens|
  {
    tokens[i] == Lit('$') && i + 1 < |tokens| && tokens[i + 1].Lit? && IsDigit(tokens[i + 1].c)
  }

  /** A token that can be resolved in one way only. */
  ghost predicate SafeAt(tokens: seq<Token>, i: nat, keys: set<string>)
    requires i < |tokens|
  {
    HoleSafe(tokens[i], keys) && !DollarDigit(tokens, i)
  }

  ghost predicate SafeUpTo(tokens: seq<Token>, n: nat, keys: set<string>) {
    Separated(tokens) && n <= |tokens| && forall i :: 0 <= i < n ==> SafeAt(tokens, i, keys)
  }

  lemma SafeTail(tokens: seq<Token>, n: nat, keys: set<string>)
    requires SafeUpTo(tokens, n, keys) && n > 0
    ensures n <= |tokens| && Separated(tokens) && SafeAt(tokens, 0, keys)
    ensures SafeUpTo(tokens[1..], n - 1, keys)
  {
    SeparatedTail(tokens);
    forall i | 0 <= i < n - 1 ensures SafeAt(tokens[1..], i, keys) {
      assert SafeAt(tokens, i + 1, keys);
    }
  }

  /** A safe front of the tokens is read as intended, and reading goes on behind it. */
  lemma {:induction false} SafeFront<V>(
    tokens: seq<Token>, n: nat, order: seq<string>, param: map<string, V>, args: seq<V>)
    requires SafeUpTo(tokens, n, param.Keys) && Bound(order, param, args)
    ensures Positional(Render(ResolvedAll(tokens, order, 0)), args)
            == NamedTokens(tokens[..n], param) + Positional(Render(ResolvedAll(tokens[n..], order, 0)), args)
  {
    hide *;
    if n == 0 {
      NoTokens(tokens, param);
      assert tokens[0..] == tokens;
    } else {
      SafeTail(tokens, n, param.Keys);
      SafeToken(tokens, order, param, args);
      SafeFront(tokens[1..], n - 1, order, param, args);
      assert tokens[1..][n - 1..] == tokens[n..];
      NamedTokensNext(tokens, n, param);
    }
  }

  lemma NoTokens<V>(tokens: seq<Token>, param: map<string, V>)
    ensures NamedTokens(tokens[..0], param) == []
  {}

  lemma NamedTokensNext<V>(tokens: seq<Token>, n: nat, param: map<string, V>)
    requires 0 < n <= |tokens|
    ensures NamedTokens(tokens[..n], param) == NamedToken(tokens[0], param) + NamedTokens(tokens[1..][..n - 1], param)
  {
    assert tokens[..n][1..] == tokens[1..][..n - 1];
  }

  lemma SafeToken<V>(tokens: seq<Token>, order: seq<string>, param: map<string, V>, args: seq<V>)
    requires Separated(tokens) && tokens != [] && Bound(order, param, args)
    requires SafeAt(tokens, 0, param.Keys)
    ensures Positional(Render(ResolvedAll(tokens, order, 0)), args)
            == NamedToken(tokens[0], param) + Positional(Render(ResolvedAll(tokens[1..], order, 0)), args)
  {
    hide Positional;
    hide Render;
    hide Separated;
    var t := tokens[0];
    if t.Hole? && FirstPrefix(order, t.name, 0).Some? {
      SafeHole(tokens, order, param, args);
    } else {
      var tail := ResolvedAll(tokens[1..], order, 0);
      RenderCons(t, tail);
      if t.Hole? {
        assert HasPrefix(t.name, t.name);
        assert t.name !in order;
        NamesArePlain(tokens);
        PlainText(":" + t.name, Render(tail), args);
      } else if t == Lit('$') {
        ResolvedStart(tokens[1..], order);
        LoneDollar(Render(tail), args);
      } else {
        PlainText([t.c], Render(tail), args);
      }
    }
  }

  /** A dollar sign not followed by a digit is text. */
  lemma LoneDollar<V>(rest: string, args: seq<V>)
    requires rest == "" || !IsDigit(rest[0])
    ensures Positional("$" + rest, args) == [Char('$')] + Positional(rest, args)
  {
    assert ("$" + rest)[1..] == rest;
  }

  lemma SafeHole<V>(tokens: seq<Token>, order: seq<string>, param: map<string, V>, args: seq<V>)
    requires Separated(tokens) && tokens != [] && Bound(order, param, args)
    requires tokens[0].Hole? && FirstPrefix(order, tokens[0].name, 0).Some? && HoleSafe(tokens[0], param.Keys)
    ensures Positional(Render(ResolvedAll(tokens, order, 0)), args)
            == NamedToken(tokens[0], param) + Positional(Render(ResolvedAll(tokens[1..], order, 0)), args)
  {
    hide Positional;
    hide Render;
    hide Separated;
    hide Decimal;
    hide Lits;
    var t := tokens[0];
    var tail := ResolvedAll(tokens[1..], order, 0);
    var j := FirstPrefix(order, t.name, 0).value;
    assert order[j] in order;
    var ph := "$" + Decimal(j + 1);
    assert ph + t.name[|order[j]|..] == ph;
    RenderLits(ph, tail);
    HoleEnds(tokens);
    ResolvedStart(tokens[1..], order);
    PlaceholderRead(j + 1, Render(tail), args);
  }

  lemma HoleEnds(tokens: seq<Token>)
    requires Separated(tokens) && tokens != [] && tokens[0].Hole?
    ensures tokens[1..] != [] && tokens[1].Lit? ==> !IsDigit(tokens[1].c)
  {
    assert |tokens| > 1 && tokens[0 + 1].Lit? ==> !IsNameChar(tokens[0 + 1].c);
  }

  lemma NamesArePlain(tokens: seq<Token>)
    requires Separated(tokens) && tokens != [] && tokens[0].Hole?
    ensures '$' !in ":" + tokens[0].name
  {}

  /** A query with no dollar sign right before a digit. */
  predicate NoDollarDigit(query: string) {
    forall i :: 0 <= i < |query| - 1 && query[i] == '$' ==> !IsDigit(query[i + 1])
  }

  /** That can be read off the text or off the tokens. */
  lemma {:induction false} DollarsInTokens(query: string)
    ensures NoDollarDigit(query) <==> forall i :: 0 <= i < |Tokens(query)| ==> !DollarDigit(Tokens(query), i)
    decreases |query|
  {
    var ts := Tokens(query);
    if query != "" {
      var n := if query[0] == ':' then 1 + NameRun(query[1..]) else 1;
      var rest := query[n..];
      assert query[0] == ':' ==> query[1..][NameRun(query[1..])..] == rest;
      assert ts[1..] == Tokens(rest);
      DollarsInTokens(rest);
      if rest != "" {
        FirstToken(rest);
      }
      DollarsInTail(query, n);
      TokenDollars(ts);
      FirstToken(query);
      assert DollarDigit(ts, 0) <==> n == 1 && query[0] == '$' && |query| > 1 && IsDigit(query[1]);
    }
  }

  /** A token at the front adds a dollar before a digit only if it is the dollar itself. */
  lemma DollarsInTail(query: string, n: nat)
    requires 0 < n <= |query|
    requires n > 1 ==> query[0] == ':' && IsName(query[1..n])
    ensures NoDollarDigit(query)
            <==> NoDollarDigit(query[n..]) && !(n == 1 && query[0] == '$' && |query| > 1 && IsDigit(query[1]))
  {
    var rest := query[n..];
    forall i | 0 <= i < |rest| ensures rest[i] == query[n + i] {}
    forall i | 0 < i < n ensures query[i] != '$' {
      assert query[1..n][i - 1] == query[i];
    }
    if NoDollarDigit(query) {
      forall i | 0 <= i < |rest| - 1 && rest[i] == '$' ensures !IsDigit(rest[i + 1]) {
        assert query[n + i] == '$' && rest[i + 1] == query[n + i + 1];
      }
    }
    if NoDollarDigit(rest) && !(n == 1 && query[0] == '$' && |query| > 1 && IsDigit(query[1])) {
      forall i | 0 <= i < |query| - 1 && query[i] == '$' ensures !IsDigit(query[i + 1]) {
        if i >= n {
          assert rest[i - n] == '$' && rest[i - n + 1] == query[i + 1];
        }
      }
    }
  }

  lemma TokenDollars(ts: seq<Token>)
    requires ts != []
    ensures (forall i :: 0 <= i < |ts| ==> !DollarDigit(ts, i))
            <==> !DollarDigit(ts, 0) && forall i :: 0 <= i < |ts[1..]| ==> !DollarDigit(ts[1..], i)
  {
    forall i: nat | i < |ts[1..]| ensures DollarDigit(ts[1..], i) == DollarDigit(ts, i + 1) {}
    if forall i :: 0 <= i < |ts[1..]| ==> !DollarDigit(ts[1..], i) {
      forall i | 0 < i < |ts| ensures !DollarDigit(ts, i) {
        assert !DollarDigit(ts[1..], i - 1);
      }
    }
  }

  /** If no parameter is a proper prefix of a name used in the query, and no dollar sign of the query
      stands before a digit, the rewritten query means what the named one does, for every iteration
      order and all parameter values. */
  lemma RewritingKeepsMeaning<V>(query: string, order: seq<string>, param: map<string, V>, args: seq<V>)
    requires Bound(order, param, args) && NoDollarDigit(query)
    requires forall k :: k in param ==> IsIdentifier(k)
    requires forall t :: t in Tokens(query) ==> HoleSafe(t, param.Keys)
    ensures Positional(RewriteFrom(query, order, 0), args) == Named(query, param)
  {
    hide NoDollarDigit;
    var ts := Tokens(query);
    RewriteIsSubstitution(query, order);
    TokensSeparated(query);
    DollarsInTokens(query);
    assert SafeUpTo(ts, |ts|, param.Keys);
    SafeFront(ts, |ts|, order, param, args);
    assert ts[..|ts|] == ts && ts[|ts|..] == [];
  }

  // ------------------------------------------ and when they do not: exactly then

  /** Each parameter bound to its own name, so that readings show which parameter they use. */
  ghost function SelfMap(keys: set<string>): map<string, string> { map k | k in keys :: k }

  lemma SomeEnumeration(keys: set<string>) returns (order: seq<string>)
    ensures IsOrder(order, keys)
  {
    if keys == {} {
      order := [];
    } else {
      var k :| k in keys;
      var rest := SomeEnumeration(keys - {k});
      order := rest + [k];
    }
  }

  /** An enumeration that starts with one key, followed by a second one if that is a key. */
  lemma EnumerationFrom(keys: set<string>, first: string, second: string) returns (order: seq<string>)
    requires first in keys && first != second
    ensures IsOrder(order, keys) && order[0] == first
    ensures second in keys ==> |order| > 1 && order[1] == second
  {
    var front := if second in keys then [first, second] else [first];
    var rest := SomeEnumeration(keys - {first, second});
    order := front + rest;
    assert forall k :: k in order <==> k in front || k in rest;
  }

  lemma {:induction false} DigitsAtLeast(s: string)
    requires AllDigits(s) && s != "" && s[0] == '1'
    ensures DigitsValue(s) >= 1 && (|s| >= 2 ==> DigitsValue(s) >= 10)
  {
    if |s| >= 2 {
      DigitsAtLeast(s[..|s| - 1]);
    } else {
      assert s[..0] == "" && DigitsValue("") == 0;
    }
  }

  lemma {:induction false} NamedTokensConcat<V>(a: seq<Token>, b: seq<Token>, param: map<string, V>)
    ensures NamedTokens(a + b, param) == NamedTokens(a, param) + NamedTokens(b, param)
  {
    if a == [] {
      assert a + b == b;
    } else {
      assert (a + b)[1..] == a[1..] + b;
      NamedTokensConcat(a[1..], b, param);
    }
  }

  /** Whatever follows, "$1" is read as argument 1 or as one numbered 10 or more. */
  lemma DollarOne<V>(rest: string, args: seq<V>) returns (number: nat)
    ensures number == 1 || number >= 10
    ensures Positional("$1" + rest, args) != []
    ensures Positional("$1" + rest, args)[0]
            == if number <= |args| then Arg(args[number - 1]) else NoSuchArg(number)
  {
    var s := "$1" + rest;
    assert s[0] == '$' && s[1..][0] == '1';
    var n := DigitRun(s[1..]);
    var digits := s[1..][..n];
    DigitsAtLeast(digits);
    number := DigitsValue(digits);
    if n == 1 {
      assert digits == Decimal(1);
      DecimalValue(1);
    }
  }

  lemma TakenByFirst(tokens: seq<Token>, order: seq<string>) returns (rest: string)
    requires tokens != [] && tokens[0].Hole? && order != [] && HasPrefix(tokens[0].name, order[0])
    ensures Render(ResolvedAll(tokens, order, 0)) == "$1" + rest
  {
    var tail := ResolvedAll(tokens[1..], order, 0);
    var suffix := tokens[0].name[|order[0]|..];
    assert Resolved(tokens[0], order, 0) == Lits("$" + Decimal(1) + suffix);
    RenderLits("$" + Decimal(1) + suffix, tail);
    hide Render;
    hide ResolvedAll;
    DecimalOne();
    hide Resolved;
    hide Lits;
    hide Decimal;
    rest := suffix + Render(tail);
    Assoc("$1", suffix, Render(tail));
    assert "$" + "1" == "$1";
  }

  lemma DecimalOne()
    ensures Decimal(1) == "1"
  {}

  /** A hole taken by a proper prefix of its name, tried first, is misread at once. */
  lemma UnsafeHoleMisread(tokens: seq<Token>, order: seq<string>, keys: set<string>)
    requires tokens != [] && tokens[0].Hole? && IsOrder(order, keys) && order != []
    requires HasPrefix(tokens[0].name, order[0]) && order[0] != tokens[0].name
    requires tokens[0].name in keys ==> |order| > 1 && order[1] == tokens[0].name
    ensures Positional(Render(ResolvedAll(tokens, order, 0)), order) != NamedTokens(tokens, SelfMap(keys))
  {
    var rest := TakenByFirst(tokens, order);
    var number := DollarOne(rest, order);
    NamedStart(tokens, keys);
    hide Positional;
    hide NamedTokens;
    hide Render;
    hide ResolvedAll;
  }

  lemma NamedStart(tokens: seq<Token>, keys: set<string>)
    requires tokens != [] && tokens[0].Hole?
    ensures NamedTokens(tokens, SelfMap(keys)) != []
    ensures NamedTokens(tokens, SelfMap(keys))[0]
            == if tokens[0].name in keys then Arg(tokens[0].name) else Char(':')
  {}

  /** A dollar sign before a digit is misread at once, under every order. */
  lemma DollarDigitMisread(tokens: seq<Token>, order: seq<string>, keys: set<string>)
    requires tokens != [] && DollarDigit(tokens, 0)
    ensures Positional(Render(ResolvedAll(tokens, order, 0)), order) != NamedTokens(tokens, SelfMap(keys))
  {
    var tail := ResolvedAll(tokens[2..], order, 0);
    assert tokens[1..][1..] == tokens[2..];
    assert ResolvedAll(tokens, order, 0) == [tokens[0]] + ([tokens[1]] + tail);
    RenderCons(tokens[0], [tokens[1]] + tail);
    RenderCons(tokens[1], tail);
    var text := Render(ResolvedAll(tokens, order, 0));
    assert text[0] == '$' && text[1..][0] == tokens[1].c;
    PositionalArg(text, order);
    assert NamedTokens(tokens, SelfMap(keys))[0] == Char('$');
  }

  lemma FirstUnsafe(tokens: seq<Token>, keys: set<string>) returns (n: nat)
    requires exists i :: 0 <= i < |tokens| && !SafeAt(tokens, i, keys)
    ensures n < |tokens| && !SafeAt(tokens, n, keys)
    ensures forall i :: 0 <= i < n ==> SafeAt(tokens, i, keys)
  {
    n := 0;
    while SafeAt(tokens, n, keys)
      invariant n < |tokens|
      invariant forall i :: 0 <= i < n ==> SafeAt(tokens, i, keys)
      invariant exists i :: n <= i < |tokens| && !SafeAt(tokens, i, keys)
      decreases |tokens| - n
    {
      n := n + 1;
    }
  }

  lemma AppendDiffers<T>(a: seq<T>, b: seq<T>, c: seq<T>)
    requires b != c
    ensures a + b != a + c
  {
    assert (a + b)[|a|..] == b && (a + c)[|a|..] == c;
  }

  /** What a caller can check before the call. */
  ghost predicate Rewritable(query: string, keys: set<string>) {
    NoDollarDigit(query) && forall t :: t in Tokens(query) ==> HoleSafe(t, keys)
  }

  lemma RewritableTokens(query: string, keys: set<string>)
    ensures Rewritable(query, keys) <==> forall i :: 0 <= i < |Tokens(query)| ==> SafeAt(Tokens(query), i, keys)
  {
    hide NoDollarDigit, DollarDigit, HoleSafe;
    DollarsInTokens(query);
    var ts := Tokens(query);
    if forall i :: 0 <= i < |ts| ==> SafeAt(ts, i, keys) {
      forall i | 0 <= i < |ts| ensures HoleSafe(ts[i], keys) && !DollarDigit(ts, i) {
        assert SafeAt(ts, i, keys);
      }
    }
  }

  lemma MisreadAt(ts: seq<Token>, n: nat, keys: set<string>) returns (order: seq<string>)
    requires n < |ts| && !SafeAt(ts, n, keys)
    ensures IsOrder(order, keys)
    ensures Positional(Render(ResolvedAll(ts[n..], order, 0)), order) != NamedTokens(ts[n..], SelfMap(keys))
  {
    hide Positional, NamedTokens, ResolvedAll, Render;
    if DollarDigit(ts, n) {
      order := SomeEnumeration(keys);
      DollarDigitMisread(ts[n..], order, keys);
    } else {
      var k :| k in keys && HasPrefix(ts[n].name, k) && k != ts[n].name;
      order := EnumerationFrom(keys, k, ts[n].name);
      UnsafeHoleMisread(ts[n..], order, keys);
    }
  }

  lemma MisreadUnderSomeOrder(query: string, keys: set<string>) returns (order: seq<string>)
    requires !Rewritable(query, keys) && forall k :: k in keys ==> IsIdentifier(k)
    ensures IsOrder(order, keys)
    ensures Positional(RewriteFrom(query, order, 0), order) != Named(query, SelfMap(keys))
  {
    hide Positional, NamedTokens, ResolvedAll, Render, Tokens, RewriteFrom, Rewritable, SafeAt;
    var ts := Tokens(query);
    RewritableTokens(query, keys);
    var n := FirstUnsafe(ts, keys);
    order := MisreadAt(ts, n, keys);
    RewriteIsSubstitution(query, order);
    TokensSeparated(query);
    var param := SelfMap(keys);
    assert param.Keys == keys;
    assert SafeUpTo(ts, n, param.Keys);
    SafeFront(ts, n, order, param, order);
    NamedTokensConcat(ts[..n], ts[n..], param);
    AppendDiffers(NamedTokens(ts[..n], param),
                  Positional(Render(ResolvedAll(ts[n..], order, 0)), order), NamedTokens(ts[n..], param));
    assert ts[..n] + ts[n..] == ts;
  }

  /** The rewriting keeps the meaning of a query for every iteration order if and only if no dollar
      sign of the query stands before a digit and no parameter is a proper prefix of a name used. */
  lemma RewritingExact(query: string, keys: set<string>)
    requires forall k :: k in keys ==> IsIdentifier(k)
    ensures (forall order :: IsOrder(order, keys) ==>
               Positional(RewriteFrom(query, order, 0), order) == Named(query, SelfMap(keys)))
            <==> Rewritable(query, keys)
  {
    hide Positional, RewriteFrom, Named, NoDollarDigit, HoleSafe;
    if Rewritable(query, keys) {
      forall order | IsOrder(order, keys)
        ensures Positional(RewriteFrom(query, order, 0), order) == Named(query, SelfMap(keys))
      {
        assert SelfMap(keys).Keys == keys;
        RewritingKeepsMeaning(query, order, SelfMap(keys), order);
      }
    } else {
      var order := MisreadUnderSomeOrder(query, keys);
    }
  }
}
