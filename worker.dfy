/**
 * The decision the redirect worker makes for one request: given the `token`
 * query parameter (absent, or a string), answer 400 with a plain-text reason
 * or 302 to a WhatsApp deep link carrying "/join <token>".
 */
module RedirectWorker {
  import opened Wrappers
  import opened Uri

  /** The deep link to the WhatsApp number 918793070914, up to its `text` parameter. */
  const DeepLinkBase: string := "https://wa.me/918793070914?text="
  const MissingTokenBody: string := "Missing token parameter"
  const InvalidTokenBody: string := "Invalid token format"

  datatype Response =
    | PlainText(status: nat, body: string)
    | Redirect(status: nat, location: string)

  /** The lengths of the hexadecimal groups of a UUID, 8-4-4-4-12. */
  const UuidGroups: seq<nat> := [8, 4, 4, 4, 12]

  predicate AllHex(s: string) {
    forall i :: 0 <= i < |s| ==> IsHexDigit(s[i])
  }

  /**
   * The pattern `[0-9a-f]{g0}-[0-9a-f]{g1}-...` with the case-insensitive flag,
   * anchored at both ends, for the group lengths `groups`.
   */
  predicate MatchesGroups(s: string, groups: seq<nat>)
    requires |groups| > 0
    decreases |groups|
  {
    if |groups| == 1 then |s| == groups[0] && AllHex(s)
    else
      && |s| > groups[0]
      && AllHex(s[..groups[0]])
      && s[groups[0]] == '-'
      && MatchesGroups(s[groups[0] + 1..], groups[1..])
  }

  /** `UUID_REGEX.test(token)` for `/^[0-9a-f]{8}-[0-9a-f]{4}-[0-9a-f]{4}-[0-9a-f]{4}-[0-9a-f]{12}$/i`. */
  predicate IsUuid(token: string) {
    MatchesGroups(token, UuidGroups)
  }

  /** The indices of the four hyphens in the textual UUID layout (section 3 of RFC 4122). */
  predicate IsHyphenIndex(i: int) {
    i == 8 || i == 13 || i == 18 || i == 23
  }

  /** A character that is right at index `i` of a UUID. */
  predicate FitsUuidAt(s: string, i: nat)
    requires i < |s|
  {
    if IsHyphenIndex(i) then s[i] == '-' else IsHexDigit(s[i])
  }

  /** Exactly the 36-character strings with hyphens at 8, 13, 18, 23 and a hex digit elsewhere. */
  lemma UuidLayout(s: string)
    ensures IsUuid(s) <==> |s| == 36 && forall i :: 0 <= i < 36 ==> FitsUuidAt(s, i)
  {
    if IsUuid(s) {
      assert |s| == 36 by { UuidUnfold(s); }
      forall i | 0 <= i < 36 ensures FitsUuidAt(s, i) {
        UuidUnfold(s);
        HexAt(s, i);
      }
    } else if |s| == 36 && forall i :: 0 <= i < 36 ==> FitsUuidAt(s, i) {
      UuidFold(s);
    }
  }

  /** The pattern read group by group, as slices of `s`. */
  predicate GroupsAt(s: string) {
    && |s| == 36
    && AllHex(s[..8]) && s[8] == '-'
    && AllHex(s[9..13]) && s[13] == '-'
    && AllHex(s[14..18]) && s[18] == '-'
    && AllHex(s[19..23]) && s[23] == '-'
    && AllHex(s[24..])
  }

  lemma UuidUnfold(s: string)
    requires IsUuid(s)
    ensures GroupsAt(s)
  {
    var s1 := s[9..];
    var s2 := s1[5..];
    var s3 := s2[5..];
    var s4 := s3[5..];
    assert MatchesGroups(s1, [4, 4, 4, 12]);
    assert MatchesGroups(s2, [4, 4, 12]);
    assert MatchesGroups(s3, [4, 12]);
    assert MatchesGroups(s4, [12]);
    assert s1[..4] == s[9..13];
    assert s2[..4] == s[14..18];
    assert s3[..4] == s[19..23];
    assert s4 == s[24..];
  }

  lemma UuidFold(s: string)
    requires |s| == 36 && forall i :: 0 <= i < 36 ==> FitsUuidAt(s, i)
    ensures IsUuid(s)
  {
    var s1 := s[9..];
    var s2 := s1[5..];
    var s3 := s2[5..];
    var s4 := s3[5..];
    assert AllHex(s4) by {
      forall i | 0 <= i < |s4| ensures IsHexDigit(s4[i]) {
        assert s4[i] == s[24 + i] && FitsUuidAt(s, 24 + i);
      }
    }
    assert MatchesGroups(s4, [12]);
    assert AllHex(s3[..4]) by {
      forall i | 0 <= i < 4 ensures IsHexDigit(s3[i]) {
        assert s3[i] == s[19 + i] && FitsUuidAt(s, 19 + i);
      }
    }
    assert s3[4] == s[23] && FitsUuidAt(s, 23);
    assert MatchesGroups(s3, [4, 12]);
    assert AllHex(s2[..4]) by {
      forall i | 0 <= i < 4 ensures IsHexDigit(s2[i]) {
        assert s2[i] == s[14 + i] && FitsUuidAt(s, 14 + i);
      }
    }
    assert s2[4] == s[18] && FitsUuidAt(s, 18);
    assert MatchesGroups(s2, [4, 4, 12]);
    assert AllHex(s1[..4]) by {
      forall i | 0 <= i < 4 ensures IsHexDigit(s1[i]) {
        assert s1[i] == s[9 + i] && FitsUuidAt(s, 9 + i);
      }
    }
    assert s1[4] == s[13] && FitsUuidAt(s, 13);
    assert MatchesGroups(s1, [4, 4, 4, 12]);
    assert AllHex(s[..8]) by {
      forall i | 0 <= i < 8 ensures IsHexDigit(s[i]) {
        assert FitsUuidAt(s, i);
      }
    }
    assert FitsUuidAt(s, 8);
    assert [4, 4, 4, 4, 12][1..] == [4, 4, 4, 12];
  }

  lemma HexAt(s: string, i: nat)
    requires GroupsAt(s) && i < 36
    ensures FitsUuidAt(s, i)
  {
    if i < 8 {
      assert s[..8][i] == s[i];
    } else if 9 <= i < 13 {
      assert s[9..13][i - 9] == s[i];
    } else if 14 <= i < 18 {
      assert s[14..18][i - 14] == s[i];
    } else if 19 <= i < 23 {
      assert s[19..23][i - 19] == s[i];
    } else if 24 <= i {
      assert s[24..][i - 24] == s[i];
    }
  }

  /** Every character of a UUID is one `encodeURIComponent` leaves alone. */
  lemma UuidUnreserved(s: string)
    requires IsUuid(s)
    ensures forall i :: 0 <= i < |s| ==> IsUnreserved(s[i])
  {
    UuidLayout(s);
    forall i | 0 <= i < |s| ensures IsUnreserved(s[i]) {
      assert FitsUuidAt(s, i);
    }
  }

  lemma EncodeCons(c: char, s: string)
    ensures EncodeURIComponent([c] + s) == EncodeChar(c) + EncodeURIComponent(s)
  {
    assert ([c] + s)[1..] == s;
  }

  lemma EncodeSlash()
    ensures EncodeChar('/') == "%2F"
  {
    assert Escape(0x2F) == "%2F";
  }

  lemma EncodeSpace()
    ensures EncodeURIComponent(" ") == "%20"
  {
    assert Escape(0x20) == "%20";
  }

  lemma EncodeJoinSpace()
    ensures EncodeURIComponent("join ") == "join%20"
  {
    EncodeSpace();
    EncodeUnreserved("join");
    EncodeConcat("join", " ");
    assert "join" + " " == "join ";
  }

  /** The fixed part of the message, "/join ", is sent as "%2Fjoin%20". */
  lemma EncodeJoinWord()
    ensures EncodeURIComponent("/join ") == "%2Fjoin%20"
  {
    EncodeJoinSpace();
    EncodeSlash();
    EncodeCons('/', "join ");
    assert ['/'] + "join " == "/join ";
  }

  /** The encoded message is "%2Fjoin%20" followed by the token as it is. */
  lemma JoinTextEncoding(token: string)
    requires IsUuid(token)
    ensures EncodeURIComponent("/join " + token) == "%2Fjoin%20" + token
  {
    EncodeConcat("/join ", token);
    UuidUnreserved(token);
    EncodeUnreserved(token);
    EncodeJoinWord();
  }

  /** The WhatsApp deep link for a token: the base followed by the encoded "/join <token>". */
  function DeepLink(token: string): string {
    DeepLinkBase + EncodeURIComponent("/join " + token)
  }

  /** What every redirect target starts with: "https://wa.me/918793070914?text=%2Fjoin%20". */
  const JoinLinkPrefix: string := DeepLinkBase + "%2Fjoin%20"

  /** For a UUID the deep link is the fixed prefix followed by the token unchanged. */
  lemma DeepLinkOfUuid(token: string)
    requires IsUuid(token)
    ensures DeepLink(token) == JoinLinkPrefix + token
  {
    JoinTextEncoding(token);
    AppendAssociative(DeepLinkBase, "%2Fjoin%20", token);
  }

  lemma AppendAssociative<T>(a: seq<T>, b: seq<T>, c: seq<T>)
    ensures (a + b) + c == a + (b + c)
  {
  }

  /**
   * The worker's answer for the `token` parameter.  A missing or empty token is
   * refused before its format is looked at; a token of the wrong format is
   * refused next; a UUID is redirected with the token passed through unchanged.
   */
  function Fetch(token: Option<string>): (r: Response)
    ensures (token.None? || token.value == "") ==> r == PlainText(400, MissingTokenBody)
    ensures token.Some? && token.value != "" && !IsUuid(token.value) ==> r == PlainText(400, InvalidTokenBody)
    ensures token.Some? && IsUuid(token.value) ==> r == Redirect(302, JoinLinkPrefix + token.value)
    ensures r.Redirect? <==> token.Some? && IsUuid(token.value)
  {
    if token.None? || token.value == "" then PlainText(400, MissingTokenBody)
    else if !IsUuid(token.value) then PlainText(400, InvalidTokenBody)
    else
      DeepLinkOfUuid(token.value);
      Redirect(302, DeepLink(token.value))
  }

  /** Reading back the `text` parameter of the redirect gives the message "/join <token>". */
  lemma RedirectCarriesMessage(token: string)
    requires IsUuid(token)
    ensures Fetch(Some(token)).location[|DeepLinkBase|..] == EncodeURIComponent("/join " + token)
    ensures DecodeURIComponent(Fetch(Some(token)).location[|DeepLinkBase|..]) == Some("/join " + token)
  {
    assert Fetch(Some(token)).location == DeepLink(token);
    DecodeEncode("/join " + token);
  }

  /** Two different tokens are never sent to the same place. */
  lemma RedirectInjective(a: string, b: string)
    requires IsUuid(a) && IsUuid(b)
    requires Fetch(Some(a)) == Fetch(Some(b))
    ensures a == b
  {
    assert (JoinLinkPrefix + a)[|JoinLinkPrefix|..] == a;
    assert (JoinLinkPrefix + b)[|JoinLinkPrefix|..] == b;
  }
}
