/**
 The scopes and form parameters that stateless authorization codes and refresh tokens carry.

 A code or token is a signed access token made from the granted scopes; signing and verifying it is taken to give the
 same claims back.
 */
module Scopes {
  import opened Wrappers

  type Scope = string

  const PREFIX: Scope := "f."
  const ACCESS_TOKEN: Scope := "access_token"
  const OFFLINE: Scope := "offline"

  predicate IsPrefixed(s: Scope) { PREFIX <= s }

  function TrimPrefix(s: Scope): Scope { if IsPrefixed(s) then s[|PREFIX|..] else s }

  // ------------------------------------------------------------------------------------------------------------
  // Lists without duplicates
  // ------------------------------------------------------------------------------------------------------------

  function Added(list: seq<Scope>, s: Scope): seq<Scope> { if s in list then list else list + [s] }

  function AddedAll(list: seq<Scope>, more: seq<Scope>): seq<Scope> {
    if more == [] then list else Added(AddedAll(list, more[..|more| - 1]), more[|more| - 1])
  }

  /** The list without its later repetitions. */
  function Dedup(list: seq<Scope>): seq<Scope> { AddedAll([], list) }

  lemma {:induction false} AddedAllContains(list: seq<Scope>, more: seq<Scope>, s: Scope)
    ensures s in AddedAll(list, more) <==> s in list || s in more
  {
    if more != [] {
      assert more == more[..|more| - 1] + [more[|more| - 1]];
      AddedAllContains(list, more[..|more| - 1], s);
    }
  }

  lemma {:induction false} AddedAllOfConcat(list: seq<Scope>, a: seq<Scope>, b: seq<Scope>)
    ensures AddedAll(list, a + b) == AddedAll(AddedAll(list, a), b)
  {
    if b == [] {
      assert a + b == a;
    } else {
      assert (a + b)[..|a + b| - 1] == a + b[..|b| - 1];
      AddedAllOfConcat(list, a, b[..|b| - 1]);
    }
  }

  lemma {:induction false} NothingNewAdded(list: seq<Scope>, more: seq<Scope>)
    requires forall s :: s in more ==> s in list
    ensures AddedAll(list, more) == list
  {
    if more != [] {
      NothingNewAdded(list, more[..|more| - 1]);
    }
  }

  /** What a list decodes to: the decoding of each scope in turn, which may be nothing. */
  function FlatMap(f: Scope -> seq<Scope>, list: seq<Scope>): seq<Scope> {
    if list == [] then [] else FlatMap(f, list[..|list| - 1]) + f(list[|list| - 1])
  }

  lemma {:induction false} FlatMapOfConcat(f: Scope -> seq<Scope>, a: seq<Scope>, b: seq<Scope>)
    ensures FlatMap(f, a + b) == FlatMap(f, a) + FlatMap(f, b)
  {
    if b == [] {
      assert a + b == a;
    } else {
      assert (a + b)[..|a + b| - 1] == a + b[..|b| - 1];
      FlatMapOfConcat(f, a, b[..|b| - 1]);
    }
  }

  lemma {:induction false} FlatMapContains(f: Scope -> seq<Scope>, list: seq<Scope>, s: Scope)
    ensures s in FlatMap(f, list) <==> exists x :: x in list && s in f(x)
  {
    if list != [] {
      var front, last := list[..|list| - 1], list[|list| - 1];
      assert list == front + [last];
      FlatMapContains(f, front, s);
    }
  }

  /** Dropping repetitions before decoding makes no difference when they are dropped after it. */
  lemma {:induction false} DedupBeforeIsNoMatter(f: Scope -> seq<Scope>, list: seq<Scope>)
    ensures Dedup(FlatMap(f, Dedup(list))) == Dedup(FlatMap(f, list))
  {
    if list != [] {
      var front, last := list[..|list| - 1], list[|list| - 1];
      DedupBeforeIsNoMatter(f, front);
      AddedAllOfConcat([], FlatMap(f, front), f(last));
      if last in Dedup(front) {
        AddedAllContains([], front, last);
        forall s | s in f(last) ensures s in Dedup(FlatMap(f, front)) {
          FlatMapContains(f, front, s);
          AddedAllContains([], FlatMap(f, front), s);
        }
        NothingNewAdded(Dedup(FlatMap(f, front)), f(last));
      } else {
        assert Dedup(list)[..|Dedup(list)| - 1] == Dedup(front);
        AddedAllOfConcat([], FlatMap(f, Dedup(front)), f(last));
      }
    }
  }

  // ------------------------------------------------------------------------------------------------------------
  // Authorization codes
  // ------------------------------------------------------------------------------------------------------------

  function EncodeRequested(s: Scope): Scope { if s == OFFLINE then OFFLINE else PREFIX + s }

  function EncodeAll(requested: seq<Scope>): seq<Scope> {
    if requested == [] then []
    else EncodeAll(requested[..|requested| - 1]) + [EncodeRequested(requested[|requested| - 1])]
  }

  /** The scopes in a code: those granted before, the requested ones marked as such, and the marker of a code. */
  function CodeScopes(granted: seq<Scope>, requested: seq<Scope>): seq<Scope> {
    AddedAll(granted, EncodeAll(requested) + [ACCESS_TOKEN])
  }

  function DecodeOne(s: Scope): seq<Scope> { if s == ACCESS_TOKEN then [] else [TrimPrefix(s)] }

  function DecodedCode(scopes: seq<Scope>): seq<Scope> { Dedup(FlatMap(DecodeOne, scopes)) }

  lemma DecodeUndoesEncode(s: Scope)
    ensures DecodeOne(EncodeRequested(s)) == [s]
  {
    assert ACCESS_TOKEN[0] == 'a' && OFFLINE[0] == 'o' && PREFIX[0] == 'f';
    if s != OFFLINE {
      assert (PREFIX + s)[0] == 'f' && (PREFIX + s)[|PREFIX|..] == s;
    }
  }

  lemma DecodeUndoesEncodeNext(front: seq<Scope>, last: Scope)
    requires FlatMap(DecodeOne, EncodeAll(front)) == front
    ensures FlatMap(DecodeOne, EncodeAll(front) + [EncodeRequested(last)]) == front + [last]
  {
    hide FlatMap, EncodeAll, DecodeOne, EncodeRequested;
    DecodeUndoesEncode(last);
    FlatMapOfConcat(DecodeOne, EncodeAll(front), [EncodeRequested(last)]);
    FlatMapOfOne(DecodeOne, EncodeRequested(last));
  }

  lemma {:induction false} DecodeUndoesEncodeAll(requested: seq<Scope>)
    ensures FlatMap(DecodeOne, EncodeAll(requested)) == requested
  {
    hide DecodeOne, EncodeRequested;
    if requested == [] {
      assert FlatMap(DecodeOne, EncodeAll(requested)) == [];
    } else {
      hide FlatMap;
      var front, last := requested[..|requested| - 1], requested[|requested| - 1];
      DecodeUndoesEncodeAll(front);
      DecodeUndoesEncodeNext(front, last);
      assert requested == front + [last];
    }
  }

  lemma FlatMapOfOne(f: Scope -> seq<Scope>, s: Scope)
    ensures FlatMap(f, [s]) == f(s)
  {
    assert [s][..0] == [] && [] + f(s) == f(s);
  }

  lemma {:induction false} EncodeAllContains(requested: seq<Scope>, s: Scope)
    ensures s in EncodeAll(requested) <==> exists x :: x in requested && EncodeRequested(x) == s
  {
    if requested != [] {
      var front, last := requested[..|requested| - 1], requested[|requested| - 1];
      assert requested == front + [last];
      EncodeAllContains(front, s);
    }
  }

  /** What a code carries, exactly: what was granted before, its own marker, OFFLINE where it was requested, and every
      other requested scope with the prefix. So no requested scope comes into it in usable form. */
  lemma CodeScopesAre(granted: seq<Scope>, requested: seq<Scope>, s: Scope)
    ensures s in CodeScopes(granted, requested) <==>
              || s in granted || s == "access_token" || (s == "offline" && s in requested)
              || ("f." <= s && s[2..] in requested && s[2..] != "offline")
    ensures s in CodeScopes(granted, requested) && s !in granted ==> s in {"offline", "access_token"} || "f." <= s
  {
    AddedAllContains(granted, EncodeAll(requested) + [ACCESS_TOKEN], s);
    EncodeAllContains(requested, s);
    if "f." <= s {
      assert "f." + s[2..] == s;
      assert s[2..] != "offline" ==> EncodeRequested(s[2..]) == s;
    }
    assert EncodeRequested("offline") == "offline";
    if x :| x in requested && EncodeRequested(x) == s {
      assert x == "offline" == s || (s == "f." + x && s[2..] == x);
    }
  }

  /** Decoding a code gives the requested scopes without repetition, for every list of scopes, also ones that look like
      the marker or are prefixed already; scopes granted before come first. */
  lemma CodeRoundTrip(granted: seq<Scope>, requested: seq<Scope>)
    ensures ACCESS_TOKEN in CodeScopes(Dedup(granted), requested)
    ensures DecodedCode(CodeScopes(Dedup(granted), requested)) == Dedup(FlatMap(DecodeOne, granted) + requested)
  {
    var more := EncodeAll(requested) + [ACCESS_TOKEN];
    AddedAllContains(Dedup(granted), more, ACCESS_TOKEN);
    AddedAllOfConcat([], granted, more);
    DedupBeforeIsNoMatter(DecodeOne, granted + more);
    FlatMapOfConcat(DecodeOne, granted, more);
    FlatMapOfConcat(DecodeOne, EncodeAll(requested), [ACCESS_TOKEN]);
    DecodeUndoesEncodeAll(requested);
    assert FlatMap(DecodeOne, [ACCESS_TOKEN]) == [];
    assert requested + [] == requested;
  }

  /** Without scopes granted before, exactly the requested ones. */
  lemma RequestedScopesSurvive(requested: seq<Scope>)
    ensures DecodedCode(CodeScopes([], requested)) == Dedup(requested)
  {
    CodeRoundTrip([], requested);
    assert FlatMap(DecodeOne, []) + requested == requested;
  }

  // ------------------------------------------------------------------------------------------------------------
  // Refresh tokens
  // ------------------------------------------------------------------------------------------------------------

  function EncodeGranted(s: Scope): Scope {
    if s == OFFLINE || s == ACCESS_TOKEN then s else if IsPrefixed(s) then s else PREFIX + s
  }

  function EncodeGrantedOne(s: Scope): seq<Scope> { [EncodeGranted(s)] }

  function TrimOne(s: Scope): seq<Scope> { [TrimPrefix(s)] }

  function RefreshScopes(granted: seq<Scope>): seq<Scope> { Dedup(FlatMap(EncodeGrantedOne, granted)) }

  function DecodedRefresh(scopes: seq<Scope>): seq<Scope> { Dedup(FlatMap(TrimOne, scopes)) }

  /** What a refresh token carries, exactly: the two special scopes as they were granted, and every other scope with the
      prefix, once. So none of the others is in it in the form in which an access token would have it. */
  lemma RefreshScopesAre(granted: seq<Scope>, s: Scope)
    ensures s in RefreshScopes(granted) <==>
              || (s in {"offline", "access_token"} && s in granted)
              || ("f." <= s && s in granted)
              || ("f." <= s && s[2..] in granted && s[2..] !in {"offline", "access_token"} && !("f." <= s[2..]))
    ensures s in RefreshScopes(granted) ==> s in {"offline", "access_token"} || "f." <= s
  {
    AddedAllContains([], FlatMap(EncodeGrantedOne, granted), s);
    FlatMapContains(EncodeGrantedOne, granted, s);
    forall g ensures s in EncodeGrantedOne(g) <==> EncodedAs(g, s) {
      EncodeGrantedIs(g, s);
    }
    hide FlatMap, EncodeGrantedOne;
    assert EncodedAs(s, s) <==> s in {"offline", "access_token"} || "f." <= s;
    if "f." <= s {
      assert "f." + s[2..] == s;
      assert EncodedAs(s[2..], s) <==> s[2..] !in {"offline", "access_token"} && !("f." <= s[2..]);
    }
    if g :| g in granted && EncodedAs(g, s) {
      assert g == s || s[2..] == g;
    }
  }

  predicate EncodedAs(g: Scope, s: Scope) {
    || (g == s && (s in {"offline", "access_token"} || "f." <= s))
    || (s == "f." + g && g !in {"offline", "access_token"} && !("f." <= g))
  }

  lemma EncodeGrantedIs(g: Scope, s: Scope)
    ensures s in EncodeGrantedOne(g) <==> EncodedAs(g, s)
  {
    assert ("f." + g)[..2] == "f." && |"f." + g| != |g|;
  }

  lemma TrimUndoesEncodeGranted(s: Scope)
    ensures TrimPrefix(EncodeGranted(s)) == TrimPrefix(s)
  {
  }

  lemma {:induction false} TrimUndoesEncodeGrantedAll(granted: seq<Scope>)
    ensures FlatMap(TrimOne, FlatMap(EncodeGrantedOne, granted)) == FlatMap(TrimOne, granted)
  {
    if granted != [] {
      var front, last := granted[..|granted| - 1], granted[|granted| - 1];
      TrimUndoesEncodeGrantedAll(front);
      TrimUndoesEncodeGranted(last);
      FlatMapOfConcat(TrimOne, FlatMap(EncodeGrantedOne, front), [EncodeGranted(last)]);
      assert FlatMap(TrimOne, [EncodeGranted(last)]) == [TrimPrefix(last)];
    }
  }

  /** A refresh turns the granted scopes into their trimmed forms without repetition. */
  lemma RefreshTrims(granted: seq<Scope>)
    ensures DecodedRefresh(RefreshScopes(granted)) == Dedup(FlatMap(TrimOne, granted))
  {
    DedupBeforeIsNoMatter(TrimOne, FlatMap(EncodeGrantedOne, granted));
    TrimUndoesEncodeGrantedAll(granted);
  }

  lemma {:induction false} NothingToTrim(granted: seq<Scope>)
    requires forall s :: s in granted ==> !IsPrefixed(s)
    ensures FlatMap(TrimOne, granted) == granted
  {
    if granted != [] {
      NothingToTrim(granted[..|granted| - 1]);
    }
  }

  function LongestPrefixed(scopes: seq<Scope>): (r: Scope)
    requires exists s :: s in scopes && IsPrefixed(s)
    ensures r in scopes && IsPrefixed(r) && forall s :: s in scopes && IsPrefixed(s) ==> |s| <= |r|
  {
    var front, last := scopes[..|scopes| - 1], scopes[|scopes| - 1];
    assert scopes == front + [last];
    if exists s :: s in front && IsPrefixed(s) then
      var r := LongestPrefixed(front);
      if IsPrefixed(last) && |last| > |r| then last else r
    else last
  }

  /** Trimming keeps the scopes, but for repetitions, exactly when none of them starts with the prefix. */
  lemma TrimKeepsScopesIff(scopes: seq<Scope>)
    ensures Dedup(FlatMap(TrimOne, scopes)) == Dedup(scopes) <==> forall s :: s in scopes ==> !IsPrefixed(s)
  {
    if forall s :: s in scopes ==> !IsPrefixed(s) {
      NothingToTrim(scopes);
    } else {
      var longest := LongestPrefixed(scopes);
      AddedAllContains([], scopes, longest);
      AddedAllContains([], FlatMap(TrimOne, scopes), longest);
      FlatMapContains(TrimOne, scopes, longest);
      NotATrimmedScope(scopes, longest);
    }
  }

  /** So does a refresh. */
  lemma RefreshKeepsScopesIff(granted: seq<Scope>)
    ensures DecodedRefresh(RefreshScopes(granted)) == Dedup(granted) <==> forall s :: s in granted ==> !IsPrefixed(s)
  {
    RefreshTrims(granted);
    TrimKeepsScopesIff(granted);
  }

  lemma NotATrimmedScope(granted: seq<Scope>, longest: Scope)
    requires IsPrefixed(longest) && forall s :: s in granted && IsPrefixed(s) ==> |s| <= |longest|
    ensures forall s :: s in granted ==> TrimPrefix(s) != longest
  {
  }

  function Refreshed(granted: seq<Scope>, times: nat): seq<Scope> {
    if times == 0 then granted else DecodedRefresh(RefreshScopes(Refreshed(granted, times - 1)))
  }

  predicate Distinct(list: seq<Scope>) { forall i, j :: 0 <= i < j < |list| ==> list[i] != list[j] }

  lemma {:induction false} AddedAllIsDistinct(list: seq<Scope>, more: seq<Scope>)
    requires Distinct(list)
    ensures Distinct(AddedAll(list, more))
  {
    if more != [] {
      AddedAllIsDistinct(list, more[..|more| - 1]);
    }
  }

  lemma {:induction false} DistinctIsKept(list: seq<Scope>)
    requires Distinct(list)
    ensures Dedup(list) == list
  {
    if list != [] {
      var front, last := list[..|list| - 1], list[|list| - 1];
      DistinctIsKept(front);
      assert last !in front;
    }
  }

  /** Unprefixed scopes survive any number of refreshes. */
  lemma {:induction false} RefreshIsStable(granted: seq<Scope>, times: nat)
    requires forall s :: s in granted ==> !IsPrefixed(s)
    ensures times > 0 ==> Refreshed(granted, times) == Dedup(granted)
  {
    if times == 1 {
      RefreshKeepsScopesIff(granted);
    } else if times > 1 {
      RefreshIsStable(granted, times - 1);
      forall s | s in Dedup(granted) ensures !IsPrefixed(s) {
        AddedAllContains([], granted, s);
      }
      RefreshKeepsScopesIff(Dedup(granted));
      AddedAllIsDistinct([], granted);
      DistinctIsKept(Dedup(granted));
    }
  }

  // ------------------------------------------------------------------------------------------------------------
  // A whole session
  // ------------------------------------------------------------------------------------------------------------

  /** What the token endpoint grants, whatever the grant type: the requested scopes, trimmed. */
  function EndpointGrants(requested: seq<Scope>): seq<Scope> { Dedup(FlatMap(TrimOne, requested)) }

  /** The scopes granted after a code was exchanged and its refresh token used this many times. */
  function SessionScopes(requested: seq<Scope>, refreshes: nat): seq<Scope> {
    if refreshes == 0 then EndpointGrants(DecodedCode(CodeScopes([], requested)))
    else EndpointGrants(DecodedRefresh(RefreshScopes(SessionScopes(requested, refreshes - 1))))
  }

  lemma TrimTwice(scopes: seq<Scope>)
    ensures EndpointGrants(Dedup(scopes)) == EndpointGrants(scopes)
  {
    DedupBeforeIsNoMatter(TrimOne, scopes);
  }

  /** The prefixed scopes are shorter than this. */
  ghost predicate PrefixedBelow(scopes: seq<Scope>, length: nat) { forall s :: s in scopes && IsPrefixed(s) ==> |s| < length }

  lemma TrimmingShortens(scopes: seq<Scope>, length: nat)
    requires PrefixedBelow(scopes, length + 1)
    ensures PrefixedBelow(EndpointGrants(scopes), length)
  {
    forall s | s in EndpointGrants(scopes) && IsPrefixed(s) ensures |s| < length {
      AddedAllContains([], FlatMap(TrimOne, scopes), s);
      FlatMapContains(TrimOne, scopes, s);
      var x :| x in scopes && s in TrimOne(x);
      assert IsPrefixed(x) && |s| < |x|;
    }
  }

  lemma {:induction false} SessionShortens(requested: seq<Scope>, refreshes: nat, length: nat)
    requires PrefixedBelow(requested, length + 1)
    ensures PrefixedBelow(SessionScopes(requested, refreshes), length)
  {
    hide PrefixedBelow, DecodedCode, DecodedRefresh;
    if refreshes == 0 {
      RequestedScopesSurvive(requested);
      TrimTwice(requested);
      TrimmingShortens(requested, length);
    } else {
      var before := SessionScopes(requested, refreshes - 1);
      SessionShortens(requested, refreshes - 1, length);
      RefreshTrims(before);
      Loosened(before, length);
      TrimmingShortens(before, length);
      Loosened(EndpointGrants(before), length);
      TrimmingShortens(EndpointGrants(before), length);
    }
  }

  lemma Loosened(scopes: seq<Scope>, length: nat)
    requires PrefixedBelow(scopes, length)
    ensures PrefixedBelow(scopes, length + 1)
  {
  }

  lemma {:induction false} SessionKeepsUnprefixed(requested: seq<Scope>, refreshes: nat)
    requires forall s :: s in requested ==> !IsPrefixed(s)
    ensures SessionScopes(requested, refreshes) == Dedup(requested)
  {
    hide FlatMap, AddedAll, IsPrefixed, DecodedCode, CodeScopes, DecodedRefresh, RefreshScopes;
    var list := Dedup(requested);
    forall s | s in list ensures !IsPrefixed(s) {
      AddedAllContains([], requested, s);
    }
    AddedAllIsDistinct([], requested);
    DistinctIsKept(list);
    TrimKeepsScopesIff(list);
    if refreshes == 0 {
      RequestedScopesSurvive(requested);
    } else {
      SessionKeepsUnprefixed(requested, refreshes - 1);
      RefreshKeepsScopesIff(list);
    }
  }

  /** After a code and any number of refreshes, the granted scopes are the requested ones, but for repetitions, exactly
      when none of those starts with the prefix: a requested "f.x" is granted as "x". */
  lemma SessionKeepsScopesIff(requested: seq<Scope>, refreshes: nat)
    ensures SessionScopes(requested, refreshes) == Dedup(requested) <==> forall s :: s in requested ==> !IsPrefixed(s)
  {
    if forall s :: s in requested ==> !IsPrefixed(s) {
      SessionKeepsUnprefixed(requested, refreshes);
    } else {
      var longest := LongestPrefixed(requested);
      SessionShortens(requested, refreshes, |longest|);
      AddedAllContains([], requested, longest);
    }
  }

  /** A client that asks for "f.x" is granted "x", at once and after every refresh. */
  lemma {:induction false} PrefixedScopeIsTrimmed(refreshes: nat)
    ensures SessionScopes(["f.x"], refreshes) == ["x"] != Dedup(["f.x"])
  {
    hide DecodedCode, CodeScopes, DecodedRefresh, RefreshScopes;
    OneScope("f.x");
    OneScope("x");
    assert "f.x"[|PREFIX|..] == "x";
    if refreshes == 0 {
      RequestedScopesSurvive(["f.x"]);
    } else {
      PrefixedScopeIsTrimmed(refreshes - 1);
      RefreshKeepsScopesIff(["x"]);
    }
  }

  lemma OneScope(s: Scope)
    ensures Dedup([s]) == [s] && EndpointGrants([s]) == [TrimPrefix(s)]
  {
    hide AddedAll, FlatMap;
    OneAdded([], s);
    OneAdded([], TrimPrefix(s));
    FlatMapOfOne(TrimOne, s);
  }

  // ------------------------------------------------------------------------------------------------------------
  // Requests and tokens
  // ------------------------------------------------------------------------------------------------------------

  const PERSISTED := {"code_challenge", "code_challenge_method"}

  type Form = map<string, seq<string>>

  datatype Token = Token(scopes: seq<Scope>, form: Option<map<string, string>>)

  datatype Error = EncryptFailed | DecryptFailed | UnknownClient | NotACode

  /** The parameters worth keeping: the first value of those that have one. */
  function Kept(form: Form): map<string, string> { map k | k in form && k in PERSISTED && form[k] != [] :: form[k][0] }

  class Request {
    var requestedScope: seq<Scope>
    var grantedScope: seq<Scope>
    var form: Form
    var formClaim: Option<map<string, string>> // of the session

    constructor (requested: seq<Scope>, granted: seq<Scope>, formClaim: Option<map<string, string>>)
      ensures requestedScope == requested && grantedScope == granted && form == map[] && this.formClaim == formClaim
    {
      requestedScope := requested;
      grantedScope := granted;
      form := map[];
      this.formClaim := formClaim;
    }

    method GrantScope(s: Scope)
      modifies `grantedScope
      ensures grantedScope == Added(old(grantedScope), s)
    {
      if s !in grantedScope {
        grantedScope := grantedScope + [s];
      }
    }

    method AppendRequestedScope(s: Scope)
      modifies `requestedScope
      ensures requestedScope == Added(old(requestedScope), s)
    {
      if s !in requestedScope {
        requestedScope := requestedScope + [s];
      }
    }

    /** Encryption draws a fresh nonce each time and may fail. */
    method GenerateAuthorizeCode(encrypt: (nat, string) -> Option<string>) returns (token: Result<Token, Error>)
      modifies this
      ensures token.Ok? ==>
        && token.value.scopes == grantedScope == CodeScopes(old(grantedScope), old(requestedScope))
        && token.value.form == formClaim
        && (if Kept(old(form)) == map[] then formClaim == old(formClaim)
            else formClaim.Some? && IsSealed(formClaim.value, Kept(old(form)), encrypt))
      ensures token.Err? ==> exists nonce, k :: k in Kept(old(form)) && encrypt(nonce, Kept(old(form))[k]) == None
    {
      ghost var granted := grantedScope;
      for i := 0 to |requestedScope|
        invariant requestedScope == old(requestedScope) && form == old(form) && formClaim == old(formClaim)
        invariant grantedScope == AddedAll(granted, EncodeAll(requestedScope[..i]))
      {
        var s := requestedScope[i];
        if s == OFFLINE {
          GrantScope(OFFLINE);
        } else {
          GrantScope(PREFIX + s);
        }
        EncodeOneMore(granted, requestedScope, i);
      }
      assert requestedScope[..|requestedScope|] == requestedScope;
      var sealed := SealForm(form, encrypt);
      if sealed.Err? {
        return Err(sealed.error);
      }
      ghost var before := grantedScope;
      GrantScope(ACCESS_TOKEN);
      AddedAllOfConcat(granted, EncodeAll(requestedScope), [ACCESS_TOKEN]);
      OneAdded(before, ACCESS_TOKEN);
      if |sealed.value| > 0 {
        formClaim := Some(sealed.value);
      }
      return Ok(Token(grantedScope, formClaim));
    }

    /** The token endpoint, for a supported grant type. */
    method GrantRequestedScopes()
      modifies `grantedScope
      ensures grantedScope == EndpointGrants(requestedScope)
    {
      grantedScope := [];
      for i := 0 to |requestedScope|
        invariant grantedScope == Dedup(FlatMap(TrimOne, requestedScope[..i]))
      {
        MapOneMore(TrimOne, requestedScope, i, TrimPrefix(requestedScope[i]));
        GrantScope(TrimPrefix(requestedScope[i]));
      }
      assert requestedScope[..|requestedScope|] == requestedScope;
    }

    method GenerateRefreshToken() returns (token: Token)
      modifies this
      ensures token == Token(grantedScope, old(formClaim)) && grantedScope == RefreshScopes(old(grantedScope))
    {
      var scopes := grantedScope;
      grantedScope := [];
      for i := 0 to |scopes|
        invariant grantedScope == Dedup(FlatMap(EncodeGrantedOne, scopes[..i])) && formClaim == old(formClaim)
      {
        var s := scopes[i];
        if s == OFFLINE || s == ACCESS_TOKEN {
          GrantScope(s);
        } else if PREFIX <= s {
          GrantScope(s);
        } else {
          GrantScope(PREFIX + s);
        }
        MapOneMore(EncodeGrantedOne, scopes, i, EncodeGranted(s));
      }
      assert scopes[..|scopes|] == scopes;
      return Token(grantedScope, formClaim);
    }
  }

  method SealForm(form: Form, encrypt: (nat, string) -> Option<string>) returns (r: Result<map<string, string>, Error>)
    ensures r.Ok? ==> IsSealed(r.value, Kept(form), encrypt)
    ensures r.Err? ==> exists nonce, k :: k in Kept(form) && encrypt(nonce, Kept(form)[k]) == None
  {
    var sealed: map<string, string> := map[];
    var left := form.Keys;
    ghost var raw := Kept(form);
    while left != {}
      invariant left <= form.Keys && sealed.Keys == raw.Keys - left
      invariant forall k :: k in sealed ==> exists nonce :: IsSealedWith(nonce, raw[k], sealed[k], encrypt)
    {
      var k :| k in left;
      left := left - {k};
      if k in PERSISTED && |form[k]| > 0 {
        assert k in raw && raw[k] == form[k][0];
        var nonce: nat :| nonce >= 0;
        match encrypt(nonce, form[k][0])
        case None =>
          return Err(EncryptFailed);
        case Some(value) =>
          assert IsSealedWith(nonce, raw[k], value, encrypt);
          sealed := sealed[k := value];
      }
    }
    return Ok(sealed);
  }

  ghost predicate IsSealedWith(nonce: nat, raw: string, sealed: string, encrypt: (nat, string) -> Option<string>) {
    encrypt(nonce, raw) == Some(sealed)
  }

  /** The same keys, each with some encryption of its value. */
  ghost predicate IsSealed(sealed: map<string, string>, raw: map<string, string>, encrypt: (nat, string) -> Option<string>) {
    sealed.Keys == raw.Keys && forall k :: k in raw ==> exists nonce :: IsSealedWith(nonce, raw[k], sealed[k], encrypt)
  }

  lemma OneAdded(list: seq<Scope>, s: Scope)
    ensures AddedAll(list, [s]) == Added(list, s)
  {
  }

  lemma EncodeOneMore(granted: seq<Scope>, requested: seq<Scope>, i: nat)
    requires i < |requested|
    ensures AddedAll(granted, EncodeAll(requested[..i + 1])) == Added(AddedAll(granted, EncodeAll(requested[..i])), EncodeRequested(requested[i]))
  {
    assert requested[..i + 1][..i] == requested[..i];
    AddedAllOfConcat(granted, EncodeAll(requested[..i]), [EncodeRequested(requested[i])]);
    OneAdded(AddedAll(granted, EncodeAll(requested[..i])), EncodeRequested(requested[i]));
  }

  lemma MapOneMore(f: Scope -> seq<Scope>, list: seq<Scope>, i: nat, s: Scope)
    requires i < |list| && f(list[i]) == [s]
    ensures Dedup(FlatMap(f, list[..i + 1])) == Added(Dedup(FlatMap(f, list[..i])), s)
  {
    assert list[..i + 1][..i] == list[..i];
    AddedAllOfConcat([], FlatMap(f, list[..i]), [s]);
    OneAdded(Dedup(FlatMap(f, list[..i])), s);
  }

  /** The request a token stands for: its scopes as requested and as granted, and its decrypted form. */
  method RehydrateSession(token: Token, decrypt: string -> Option<string>, clientKnown: bool) returns (r: Result<Request, Error>)
    ensures r.Ok? ==>
      && fresh(r.value) && clientKnown
      && r.value.requestedScope == token.scopes && r.value.grantedScope == token.scopes
      && (token.form.None? ==> r.value.form == map[])
      && (token.form.Some? ==> IsOpened(r.value.form, token.form.value, decrypt))
    ensures r.Err? ==> !clientKnown || (token.form.Some? && exists k :: k in token.form.value && decrypt(token.form.value[k]) == None)
  {
    var request := new Request(token.scopes, token.scopes, token.form);
    if !clientKnown {
      return Err(UnknownClient);
    }
    if token.form.Some? {
      var sealed := token.form.value;
      var left := sealed.Keys;
      while left != {}
        invariant left <= sealed.Keys && request.requestedScope == token.scopes && request.grantedScope == token.scopes
        invariant IsOpened(request.form, map k | k in sealed && k !in left :: sealed[k], decrypt)
      {
        var k :| k in left;
        left := left - {k};
        var raw := decrypt(sealed[k]);
        if raw.None? {
          return Err(DecryptFailed);
        }
        request.form := request.form[k := [raw.value]];
      }
      assert sealed == map k | k in sealed && k !in left :: sealed[k];
    }
    return Ok(request);
  }

  ghost predicate IsOpened(form: Form, sealed: map<string, string>, decrypt: string -> Option<string>) {
    form.Keys == sealed.Keys && forall k :: k in sealed ==> |form[k]| == 1 && decrypt(sealed[k]) == Some(form[k][0])
  }

  method GetAuthorizeCodeSession(token: Token, decrypt: string -> Option<string>, clientKnown: bool) returns (r: Result<Request, Error>)
    ensures r.Ok? ==>
      && fresh(r.value) && ACCESS_TOKEN in token.scopes
      && r.value.requestedScope == DecodedCode(token.scopes) && r.value.grantedScope == token.scopes
      && (token.form.None? ==> r.value.form == map[])
      && (token.form.Some? ==> IsOpened(r.value.form, token.form.value, decrypt))
    ensures r.Err? ==>
      || !clientKnown || ACCESS_TOKEN !in token.scopes
      || (token.form.Some? && exists k :: k in token.form.value && decrypt(token.form.value[k]) == None)
  {
    r := RehydrateSession(token, decrypt, clientKnown);
    if r.Err? {
      return;
    }
    var request := r.value;
    if ACCESS_TOKEN !in request.requestedScope {
      return Err(NotACode);
    }
    var scopes := request.requestedScope;
    request.requestedScope := [];
    ghost var form := request.form;
    for i := 0 to |scopes|
      invariant request.requestedScope == Dedup(FlatMap(DecodeOne, scopes[..i]))
      invariant request.form == form && request.grantedScope == token.scopes
    {
      assert scopes[..i + 1][..i] == scopes[..i];
      if scopes[i] != ACCESS_TOKEN {
        MapOneMore(DecodeOne, scopes, i, TrimPrefix(scopes[i]));
        request.AppendRequestedScope(TrimPrefix(scopes[i]));
      } else {
        assert FlatMap(DecodeOne, scopes[..i + 1]) == FlatMap(DecodeOne, scopes[..i]);
      }
    }
    assert scopes[..|scopes|] == scopes;
  }

  method GetRefreshTokenSession(token: Token, decrypt: string -> Option<string>, clientKnown: bool) returns (r: Result<Request, Error>)
    ensures r.Ok? ==>
      && fresh(r.value)
      && r.value.requestedScope == DecodedRefresh(token.scopes) && r.value.grantedScope == DecodedRefresh(token.scopes)
    ensures r.Err? ==> !clientKnown || (token.form.Some? && exists k :: k in token.form.value && decrypt(token.form.value[k]) == None)
  {
    r := RehydrateSession(token, decrypt, clientKnown);
    if r.Err? {
      return;
    }
    var request := r.value;
    var scopes := request.grantedScope;
    request.grantedScope := [];
    request.requestedScope := [];
    for i := 0 to |scopes|
      invariant request.requestedScope == Dedup(FlatMap(TrimOne, scopes[..i]))
      invariant request.grantedScope == Dedup(FlatMap(TrimOne, scopes[..i]))
    {
      MapOneMore(TrimOne, scopes, i, TrimPrefix(scopes[i]));
      request.AppendRequestedScope(TrimPrefix(scopes[i]));
      request.GrantScope(TrimPrefix(scopes[i]));
    }
    assert scopes[..|scopes|] == scopes;
  }

  /** Where decryption undoes encryption, a form that was sealed and opened again has the kept parameters, each with its
      first value. */
  lemma FormRoundTrip(raw: map<string, string>, sealed: map<string, string>, form: Form,
                      encrypt: (nat, string) -> Option<string>, decrypt: string -> Option<string>)
    requires forall nonce, text, code :: IsSealedWith(nonce, text, code, encrypt) ==> decrypt(code) == Some(text)
    requires IsSealed(sealed, raw, encrypt) && IsOpened(form, sealed, decrypt)
    ensures form == map k | k in raw :: [raw[k]]
  {
    forall k | k in raw ensures form[k] == [raw[k]] {
      var nonce :| IsSealedWith(nonce, raw[k], sealed[k], encrypt);
    }
  }

  lemma SealedOpens(raw: map<string, string>, sealed: map<string, string>,
                    encrypt: (nat, string) -> Option<string>, decrypt: string -> Option<string>)
    requires forall nonce, text, code :: IsSealedWith(nonce, text, code, encrypt) ==> decrypt(code) == Some(text)
    requires IsSealed(sealed, raw, encrypt)
    ensures forall k :: k in sealed ==> decrypt(sealed[k]).Some?
  {
    forall k | k in raw ensures decrypt(sealed[k]).Some? {
      var nonce :| IsSealedWith(nonce, raw[k], sealed[k], encrypt);
    }
  }

  /** A code issued for a request and presented again gives back, without repetition, the scopes granted before and the
      requested ones, and the PKCE parameters. */
  method ExchangeCode(request: Request, encrypt: (nat, string) -> Option<string>, decrypt: string -> Option<string>)
    returns (r: Result<Request, Error>)
    requires forall nonce, text, code :: IsSealedWith(nonce, text, code, encrypt) ==> decrypt(code) == Some(text)
    requires Distinct(request.grantedScope) && request.formClaim == None
    modifies request
    ensures r.Ok? ==>
      && r.value.requestedScope == Dedup(FlatMap(DecodeOne, old(request.grantedScope)) + old(request.requestedScope))
      && (forall k :: k in r.value.form <==>
            k in {"code_challenge", "code_challenge_method"} && k in old(request.form) && old(request.form)[k] != [])
      && (forall k :: k in r.value.form ==> r.value.form[k] == [old(request.form)[k][0]])
    ensures r.Err? ==> exists nonce, k :: k in Kept(old(request.form)) && encrypt(nonce, Kept(old(request.form))[k]) == None
  {
    ghost var raw := Kept(request.form);
    DistinctIsKept(request.grantedScope);
    CodeRoundTrip(request.grantedScope, request.requestedScope);
    var token := request.GenerateAuthorizeCode(encrypt);
    if token.Err? {
      return Err(token.error);
    }
    if token.value.form.Some? {
      SealedOpens(raw, token.value.form.value, encrypt, decrypt);
    }
    hide DecodedCode, FlatMap, AddedAll, CodeScopes;
    r := GetAuthorizeCodeSession(token.value, decrypt, true);
    if r.Ok? && token.value.form.Some? {
      FormRoundTrip(raw, token.value.form.value, r.value.form, encrypt, decrypt);
    }
  }
}
