/** The credentials document of Codex CLI and the rotation of its two tokens. */
module CodexAuth {
  import opened Wrappers
  import opened Json

  datatype Auth = Auth(access: string, refresh: Option<string>, account: Option<string>)

  /** What a refresh grant returns; `refresh` is present when the provider rotates it. */
  datatype Grant = Grant(access: string, refresh: Option<string>)

  /** `None`: no OAuth credential available. */
  function ParseAuth(doc: Value): Option<Auth> {
    if GetStr(doc, "auth_mode") != Some("chatgpt") then None
    else
      match Get(doc, "tokens")
      case None => None
      case Some(tokens) =>
        match GetStr(tokens, "access_token")
        case None => None
        case Some(access) => Some(Auth(access, GetStr(tokens, "refresh_token"), GetStr(tokens, "account_id")))
  }

  /** A document holds credentials exactly when it is one of a ChatGPT login with an access token
      among its tokens; a refresh token or an account may be missing. */
  lemma ParsedExactly(doc: Value, auth: Auth)
    ensures ParseAuth(doc) == Some(auth) <==>
            && Get(doc, "auth_mode") == Some(Str("chatgpt"))
            && Get(GetOrNull(doc, "tokens"), "access_token") == Some(Str(auth.access))
            && (forall token: string ::
                  auth.refresh == Some(token) <==> Get(GetOrNull(doc, "tokens"), "refresh_token") == Some(Str(token)))
            && (forall account: string ::
                  auth.account == Some(account) <==> Get(GetOrNull(doc, "tokens"), "account_id") == Some(Str(account)))
  {
    var tokens := GetOrNull(doc, "tokens");
    SameWhenAlways(auth.refresh, GetStr(tokens, "refresh_token"));
    SameWhenAlways(auth.account, GetStr(tokens, "account_id"));
  }

  lemma SameWhenAlways(a: Option<string>, b: Option<string>)
    ensures a == b <==> forall s: string :: a == Some(s) <==> b == Some(s)
  {
    if a != b {
      if a.Some? {
        assert a == Some(a.value) && b != Some(a.value);
      } else {
        assert b == Some(b.value) && a != Some(b.value);
      }
    }
  }

  /** How writing the tokens into a document ends: indexing by a key makes an object of
      `null` and panics on any other value that is not an object. */
  datatype Rotation = Rotated(doc: Value) | NoTokens | Panics

  function WithTokens(tokens: map<string, Value>, grant: Grant): map<string, Value> {
    var m := tokens["access_token" := Str(grant.access)];
    match grant.refresh case Some(refresh) => m["refresh_token" := Str(refresh)] case None => m
  }

  function Rotate(doc: Value, grant: Grant): Rotation {
    match Get(doc, "tokens")
    case None => NoTokens
    case Some(Object(tokens)) => Rotated(Object(doc.fields["tokens" := Object(WithTokens(tokens, grant))]))
    case Some(Null) => Rotated(Object(doc.fields["tokens" := Object(WithTokens(map[], grant))]))
    case Some(_) => Panics
  }

  /** A file that cannot be read or parsed is `None`. `stored` says whether every file
      operation of the atomic replacement succeeded; if one did not, the old file stands. */
  function Persisted(file: Option<Value>, grant: Grant, stored: bool): Option<Value> {
    if stored && file.Some? && Rotate(file.value, grant).Rotated? then Some(Rotate(file.value, grant).doc) else file
  }

  /** The credentials in a file. */
  function AuthIn(file: Option<Value>): Option<Auth> {
    match file case None => None case Some(doc) => ParseAuth(doc)
  }

  /** The refresh token in a file. */
  function RefreshIn(file: Option<Value>): Option<string> {
    match AuthIn(file) case None => None case Some(auth) => auth.refresh
  }

  /** Reading back what was persisted gives the granted tokens, the old refresh token if the
      grant did not rotate it, and the same account; where credentials could be read at all,
      a rotation neither fails nor panics. */
  lemma RotationReadsBack(doc: Value, grant: Grant)
    requires ParseAuth(doc).Some?
    ensures Rotate(doc, grant).Rotated?
    ensures var before := ParseAuth(doc).value;
            ParseAuth(Rotate(doc, grant).doc) ==
            Some(Auth(grant.access, if grant.refresh.Some? then grant.refresh else before.refresh, before.account))
  {
    var after := Rotate(doc, grant).doc;
    assert GetStr(after, "auth_mode") == GetStr(doc, "auth_mode");
    var (tokens, tokens') := (Get(doc, "tokens").value, Get(after, "tokens").value);
    assert GetStr(tokens', "account_id") == GetStr(tokens, "account_id");
    assert grant.refresh.None? ==> GetStr(tokens', "refresh_token") == GetStr(tokens, "refresh_token");
  }

  /** Two documents that differ at most in the two tokens. */
  ghost predicate SameButTokens(a: Value, b: Value) {
    && (forall key :: key != "tokens" ==> Get(a, key) == Get(b, key))
    && (Get(a, "tokens").Some? <==> Get(b, "tokens").Some?)
    && (Get(a, "tokens").Some? ==> SameTokensBut(Get(a, "tokens").value, Get(b, "tokens").value))
  }

  ghost predicate SameTokensBut(a: Value, b: Value) {
    forall key :: key != "access_token" && key != "refresh_token" ==> Get(a, key) == Get(b, key)
  }

  /** Every field other than the two tokens, at either level, keeps its value. */
  lemma RotationKeepsTheRest(doc: Value, grant: Grant)
    requires Rotate(doc, grant).Rotated?
    ensures SameButTokens(doc, Rotate(doc, grant).doc)
  {
    var after := Rotate(doc, grant).doc;
    forall key | key != "tokens" ensures Get(doc, key) == Get(after, key) {
    }
    var (tokens, tokens') := (Get(doc, "tokens").value, Get(after, "tokens").value);
    forall key | key != "access_token" && key != "refresh_token" ensures Get(tokens, key) == Get(tokens', key) {
    }
  }

  lemma SameIsTransitive(a: Value, b: Value, c: Value)
    requires SameButTokens(a, b) && SameButTokens(b, c)
    ensures SameButTokens(a, c)
  {
    forall key | key != "tokens" ensures Get(a, key) == Get(c, key) {
      assert Get(a, key) == Get(b, key);
    }
    if Get(a, "tokens").Some? {
      var (ta, tb, tc) := (Get(a, "tokens").value, Get(b, "tokens").value, Get(c, "tokens").value);
      forall key | key != "access_token" && key != "refresh_token" ensures Get(ta, key) == Get(tc, key) {
        assert Get(ta, key) == Get(tb, key);
      }
    }
  }

  /** `auth.json`. */
  class AuthFile {
    var content: Option<Value>

    constructor (content: Option<Value>)
      ensures this.content == content
    {
      this.content := content;
    }

    /** `persist_rotation`: the document is parsed, its tokens are overwritten one after the
        other, and it replaces the file as a whole or not at all. */
    method PersistRotation(grant: Grant, stored: bool) returns (ok: bool)
      requires content.Some? ==> !Rotate(content.value, grant).Panics?
      modifies this
      ensures content == Persisted(old(content), grant, stored)
      ensures ok <==> stored && old(content).Some? && Rotate(old(content).value, grant).Rotated?
    {
      if content.None? || Get(content.value, "tokens").None? {
        return false;
      }
      var doc := content.value;
      var member := Get(doc, "tokens").value;
      var tokens := if member.Null? then map[] else member.fields;
      tokens := tokens["access_token" := Str(grant.access)];
      if grant.refresh.Some? {
        tokens := tokens["refresh_token" := Str(grant.refresh.value)];
      }
      doc := Object(doc.fields["tokens" := Object(tokens)]);
      if stored {
        content := Some(doc);
      }
      ok := stored;
    }
  }
}
