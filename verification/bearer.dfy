/** The bearer header, written by the client and read by the server. */
module Bearer {
  import opened Wrappers
  import opened Text

  const SCHEME := "bearer "

  /** ASCII lower case. No other character folds to a letter of the scheme. */
  function Lower(c: char): char {
    if 'A' <= c <= 'Z' then (c as int + 32) as char else c
  }

  /** `strings.EqualFold(s, "bearer ")` for a string of that length. */
  predicate IsScheme(s: string) {
    |s| == |SCHEME| && forall i :: 0 <= i < |s| ==> Lower(s[i]) == SCHEME[i]
  }

  /** No control character, no space, no DEL. */
  predicate Visible(t: string) {
    forall i :: 0 <= i < |t| ==> t[i] >= '!' && t[i] != '\U{007F}'
  }

  /** The part of `FromIncomingMetadata` that looks at the one header value. */
  function Parse(v: string): string {
    if |v| < |SCHEME| then ""
    else if !IsScheme(v[..|SCHEME|]) then ""
    else
      var tok := TrimSpace(v[|SCHEME|..]);
      if tok == "" then "" else if !Visible(tok) then "" else tok
  }

  type Metadata = map<string, seq<string>>

  /** `FromIncomingMetadata`; a nil metadata is `None`. */
  function FromIncomingMetadata(md: Option<Metadata>): string {
    if md.None? then ""
    else
      var values := if "authorization" in md.value then md.value["authorization"] else [];
      if |values| == 0 then "" else if |values| > 1 then "" else Parse(values[0])
  }

  /** `withBearer`: the header the client attaches, or an error for an empty token. */
  function WithBearer(token: string): Option<string> {
    if token == "" then None else Some("Bearer " + token)
  }

  /** How a header is read as token t. */
  predicate ReadsAs(v: string, scheme: string, lead: string, t: string, trail: string) {
    v == scheme + lead + t + trail && IsScheme(scheme) && AllSpace(lead) && AllSpace(trail) && Trimmed(t) && Visible(t)
  }

  lemma ParseSound(v: string) returns (scheme: string, lead: string, trail: string)
    requires Parse(v) != ""
    ensures ReadsAs(v, scheme, lead, Parse(v), trail)
  {
    hide TrimSpace, IsScheme, Visible;
    scheme := v[..|SCHEME|];
    lead, trail := TrimSpaceSplits(v[|SCHEME|..]);
  }

  lemma ParseComplete(v: string, scheme: string, lead: string, t: string, trail: string)
    requires ReadsAs(v, scheme, lead, t, trail)
    ensures Parse(v) == t
  {
    assert v[..|SCHEME|] == scheme;
    assert v[|SCHEME|..] == lead + t + trail;
    TrimSpaceOf(lead, t, trail);
  }

  /** A header yields token t exactly when it is the scheme in any letter case, t
      between optional white space, and t has no control characters or spaces. */
  lemma ParsesIff(v: string, t: string)
    requires t != ""
    ensures Parse(v) == t <==> exists scheme, lead, trail :: ReadsAs(v, scheme, lead, t, trail)
  {
    if Parse(v) == t {
      var scheme, lead, trail := ParseSound(v);
    }
    if exists scheme, lead, trail :: ReadsAs(v, scheme, lead, t, trail) {
      var scheme, lead, trail :| ReadsAs(v, scheme, lead, t, trail);
      ParseComplete(v, scheme, lead, t, trail);
    }
  }

  /** The scheme, letter by letter. */
  lemma SchemeSays(s: string)
    ensures IsScheme(s) <==>
              && |s| == 7
              && s[0] in {'b', 'B'} && s[1] in {'e', 'E'} && s[2] in {'a', 'A'} && s[3] in {'r', 'R'}
              && s[4] in {'e', 'E'} && s[5] in {'r', 'R'} && s[6] == ' '
  {
    LowerSays('b');
    LowerSays('e');
    LowerSays('a');
    LowerSays('r');
    assert Lower(' ') == ' ';
    hide Lower;
  }

  lemma LowerSays(x: char)
    requires 'a' <= x <= 'z'
    ensures forall c :: Lower(c) == x <==> c == x || c as int == x as int - 32
    ensures forall c :: Lower(c) == ' ' <==> c == ' '
  {}

  /** A header value that is read as t, character by character. */
  predicate Spelled(v: string, t: string, lead: nat, trail: nat) {
    && |v| == 7 + lead + |t| + trail
    && v[0] in {'b', 'B'} && v[1] in {'e', 'E'} && v[2] in {'a', 'A'} && v[3] in {'r', 'R'}
    && v[4] in {'e', 'E'} && v[5] in {'r', 'R'} && v[6] == ' '
    && (forall i :: 7 <= i < 7 + lead ==> IsSpace(v[i]))
    && v[7 + lead..7 + lead + |t|] == t
    && (forall i :: 7 + lead + |t| <= i < |v| ==> IsSpace(v[i]))
    && (t != "" ==> !IsSpace(t[0]) && !IsSpace(t[|t| - 1]))
    && (forall i :: 0 <= i < |t| ==> 0x21 <= t[i] as int && t[i] as int != 0x7F)
  }

  lemma ParsesIffSpelled(v: string, t: string)
    requires t != ""
    ensures Parse(v) == t <==> exists lead: nat, trail: nat :: Spelled(v, t, lead, trail)
  {
    if Parse(v) == t {
      var scheme, lead, trail := ParseSound(v);
      hide *;
      SpelledOut(v, scheme, lead, t, trail);
    }
    if exists lead: nat, trail: nat :: Spelled(v, t, lead, trail) {
      var lead: nat, trail: nat :| Spelled(v, t, lead, trail);
      SpelledIsRead(v, t, lead, trail);
      hide *;
      ParseComplete(v, v[..7], v[7..7 + lead], t, v[7 + lead + |t|..]);
    }
  }

  lemma SpelledOut(v: string, scheme: string, lead: string, t: string, trail: string)
    requires ReadsAs(v, scheme, lead, t, trail)
    ensures Spelled(v, t, |lead|, |trail|)
  {
    SchemeSays(scheme);
    hide IsScheme, IsSpace;
    var l := 7 + |lead|;
    assert v[..7] == scheme && v[7..l] == lead && v[l..l + |t|] == t && v[l + |t|..] == trail;
    forall i | 7 <= i < l ensures IsSpace(v[i]) {
      assert v[i] == lead[i - 7];
    }
    forall i | l + |t| <= i < |v| ensures IsSpace(v[i]) {
      assert v[i] == trail[i - l - |t|];
    }
  }

  lemma SpelledIsRead(v: string, t: string, lead: nat, trail: nat)
    requires Spelled(v, t, lead, trail)
    ensures ReadsAs(v, v[..7], v[7..7 + lead], t, v[7 + lead + |t|..])
  {
    SchemeSays(v[..7]);
    hide IsScheme, IsSpace;
    assert v == v[..7] + v[7..7 + lead] + v[7 + lead..7 + lead + |t|] + v[7 + lead + |t|..];
  }

  /** Whatever else the metadata holds: the token is read from the authorization value if
      there is exactly one, and there is none otherwise. */
  lemma OnlyAuthorizationCounts(md: Option<Metadata>)
    ensures FromIncomingMetadata(md) ==
            if md.Some? && "authorization" in md.value && |md.value["authorization"]| == 1
            then Parse(md.value["authorization"][0]) else ""
  {}

  /** An empty token is not sent, any other is sent as it is. */
  lemma HeaderSays(token: string)
    ensures WithBearer(token).None? <==> token == ""
    ensures token != "" ==> |WithBearer(token).value| == 7 + |token| && WithBearer(token).value[7..] == token
  {}

  lemma SchemeOfClient()
    ensures IsScheme("Bearer ")
  {}

  /** The server reads back what the client attached exactly when the token has no
      control characters or spaces in it and no white space at its ends. */
  lemma RoundTripIff(token: string)
    requires token != ""
    ensures WithBearer(token).Some?
    ensures FromIncomingMetadata(Some(map["authorization" := [WithBearer(token).value]])) == token
            <==> Visible(token) && Trimmed(token)
  {
    var v := "Bearer " + token;
    SchemeOfClient();
    if Visible(token) && Trimmed(token) {
      assert v == "Bearer " + "" + token + "";
      ParseComplete(v, "Bearer ", "", token, "");
    }
    if Parse(v) == token {
      var _, _, _ := ParseSound(v);
    }
  }

  predicate IsB64Char(c: char) {
    'a' <= c <= 'z' || 'A' <= c <= 'Z' || '0' <= c <= '9' || c in {'-', '.', '_', '~', '+', '/'}
  }

  /** b64token of section 2.1 of RFC 6750: at least one character of the alphabet,
      then any number of equals signs. */
  predicate IsB64Token(t: string) {
    exists n :: 1 <= n <= |t| && IsB64Split(t, n)
  }

  predicate IsB64Split(t: string, n: nat) {
    n <= |t| && (forall i :: 0 <= i < n ==> IsB64Char(t[i])) && (forall i :: n <= i < |t| ==> t[i] == '=')
  }

  /** Every b64token survives the trip. */
  lemma B64RoundTrip(token: string)
    requires IsB64Token(token)
    ensures WithBearer(token).Some?
    ensures FromIncomingMetadata(Some(map["authorization" := [WithBearer(token).value]])) == token
  {
    RoundTripIff(token);
  }

  /** Whatever a server accepts is clean, came from the only authorization value, and
      a client that attaches it again is understood. */
  lemma AcceptedTokensAreStable(md: Option<Metadata>)
    requires FromIncomingMetadata(md) != ""
    ensures var t := FromIncomingMetadata(md);
            && Visible(t) && Trimmed(t)
            && md.Some? && "authorization" in md.value && |md.value["authorization"]| == 1
            && WithBearer(t).Some?
            && FromIncomingMetadata(Some(map["authorization" := [WithBearer(t).value]])) == t
  {
    var v := md.value["authorization"][0];
    var _, _, _ := ParseSound(v);
    RoundTripIff(FromIncomingMetadata(md));
  }

  /** Exactly when a token with white space in it survives the trip: it is otherwise
      clean, and the white space is inside it and not ASCII. "No white space inside"
      is true of ASCII only. */
  lemma SpaceIsAcceptedIff(token: string)
    requires token != ""
    ensures Parse("Bearer " + token) == token && (exists i :: 0 <= i < |token| && IsSpace(token[i]))
            <==> Visible(token) && Trimmed(token)
                 && exists i :: 0 < i < |token| - 1 && IsSpace(token[i]) && token[i] >= '\U{0080}'
  {
    RoundTripIff(token);
    hide Parse;
  }

  /** The same of whatever header a server is sent. */
  lemma AcceptedSpaceIff(v: string)
    ensures var t := Parse(v);
            (exists i :: 0 <= i < |t| && IsSpace(t[i]))
            <==> exists i :: 0 < i < |t| - 1 && IsSpace(t[i]) && t[i] >= '\U{0080}'
  {
    if Parse(v) != "" {
      var _, _, _ := ParseSound(v);
    }
    hide Parse;
  }

  /** There is such a token: a no-break space in the middle. */
  lemma InteriorSpaceMayBeAccepted() returns (token: string)
    ensures exists i :: 0 < i < |token| - 1 && IsSpace(token[i])
    ensures Parse("Bearer " + token) == token
  {
    token := "a\U{00A0}b";
    assert IsSpace(token[1]);
    RoundTripIff(token);
  }

  lemma AcceptedAsciiHasNoSpace(v: string, i: nat)
    requires i < |Parse(v)| && Parse(v)[i] < '\U{0080}'
    ensures !IsSpace(Parse(v)[i])
  {}
}
