/**
 * The credential value of the dassie front end (dassie/query_dassie.py):
 * the keyring holds one string per service, so user name, password, host
 * and port are stored together, separated by the control character
 * U+0003 (the character control-c types). The keyring itself is a
 * parameter: what it holds for the service, if anything.
 */
module Credentials {
  import opened Wrappers
  import opened Text

  /** `_sep`. */
  const Sep: char := '\U{0003}'

  /** The four connection fields as `main` holds them; a field may be `None`. */
  datatype Fields = Fields(user: Option<string>, pswd: Option<string>, host: Option<string>, port: Option<string>)

  /** A field as `save_credentials` stores it: falsy (absent or empty) becomes the empty string. */
  function Blank(o: Option<string>): (r: string)
    ensures o.Some? ==> r == o.value
    ensures o.None? ==> r == ""
  {
    if o.Some? && o.value != "" then o.value else ""
  }

  /** `_encode`: the four values with the separator between them. */
  function Encode(user: string, pswd: string, host: string, port: string): string {
    user + [Sep] + pswd + [Sep] + host + [Sep] + port
  }

  /** `_decode`: the value split at every separator. */
  function Decode(value: string): (r: seq<string>)
    ensures |r| >= 1 && forall k :: 0 <= k < |r| ==> Sep !in r[k]
  {
    Split(value, Sep)
  }

  /** The value `save_credentials` writes under the fixed name `credentials`. */
  function SaveCredentials(f: Fields): string {
    Encode(Blank(f.user), Blank(f.pswd), Blank(f.host), Blank(f.port))
  }

  /** `get_credentials`: the decoded fields if the keyring holds a non-empty value, else four `None`s. */
  function GetCredentials(stored: Option<string>): (r: seq<Option<string>>)
    ensures stored.None? || stored.value == "" ==> r == [None, None, None, None]
    ensures stored.Some? && stored.value != "" ==>
      |r| == |Decode(stored.value)| && forall k :: 0 <= k < |r| ==> r[k] == Some(Decode(stored.value)[k])
  {
    if stored.None? || stored.value == "" then [None, None, None, None]
    else Somes(Decode(stored.value))
  }

  function Somes(xs: seq<string>): (r: seq<Option<string>>)
    ensures |r| == |xs| && forall k :: 0 <= k < |xs| ==> r[k] == Some(xs[k])
  {
    if xs == [] then [] else [Some(xs[0])] + Somes(xs[1..])
  }

  /** The encoding is a join with the separator. */
  lemma EncodeIsJoin(user: string, pswd: string, host: string, port: string)
    ensures Encode(user, pswd, host, port) == Join([user, pswd, host, port], Sep)
  {
    var p3 := [port];
    var p2 := [host, port];
    var p1 := [pswd, host, port];
    assert Join(p3, Sep) == port;
    assert p2[1..] == p3;
    assert Join(p2, Sep) == host + [Sep] + port;
    assert p1[1..] == p2;
    assert Join(p1, Sep) == pswd + [Sep] + (host + [Sep] + port);
    assert [user, pswd, host, port][1..] == p1;
  }

  /** Decoding undoes encoding when no value holds the separator. */
  lemma DecodeEncode(user: string, pswd: string, host: string, port: string)
    requires Sep !in user && Sep !in pswd && Sep !in host && Sep !in port
    ensures Decode(Encode(user, pswd, host, port)) == [user, pswd, host, port]
  {
    EncodeIsJoin(user, pswd, host, port);
    SplitJoin([user, pswd, host, port], Sep);
  }

  /** Encoding undoes decoding for every value that decodes to four fields. */
  lemma EncodeDecode(value: string)
    requires |Decode(value)| == 4
    ensures var d := Decode(value); Encode(d[0], d[1], d[2], d[3]) == value
  {
    var d := Decode(value);
    assert d == [d[0], d[1], d[2], d[3]];
    EncodeIsJoin(d[0], d[1], d[2], d[3]);
    JoinSplit(value, Sep);
  }

  /**
   * What is saved is read back, falsy fields as empty strings: the saved
   * value is never empty (it holds three separators).
   */
  lemma SavedRoundTrip(f: Fields)
    requires Sep !in Blank(f.user) && Sep !in Blank(f.pswd) && Sep !in Blank(f.host) && Sep !in Blank(f.port)
    ensures GetCredentials(Some(SaveCredentials(f)))
      == [Some(Blank(f.user)), Some(Blank(f.pswd)), Some(Blank(f.host)), Some(Blank(f.port))]
  {
    var v := SaveCredentials(f);
    assert v[|Blank(f.user)|] == Sep;
    DecodeEncode(Blank(f.user), Blank(f.pswd), Blank(f.host), Blank(f.port));
  }

  /**
   * The keyring step of `main` (dassie/query_dassie.py:120-124): read the
   * saved fields and save the current ones if any differs. Unpacking the
   * read fields into four names fails unless there are exactly four.
   */
  function Refresh(stored: Option<string>, f: Fields): (r: Result<Option<string>, string>)
    ensures r.Err? <==> |GetCredentials(stored)| != 4
    ensures r.Ok? ==> r.value == stored || r.value == Some(SaveCredentials(f))
    ensures r.Ok? && r.value != stored ==> GetCredentials(stored) != [f.user, f.pswd, f.host, f.port]
  {
    var s := GetCredentials(stored);
    if |s| != 4 then Err("ValueError")
    else if s[0] != f.user || s[1] != f.pswd || s[2] != f.host || s[3] != f.port then Ok(Some(SaveCredentials(f)))
    else Ok(stored)
  }

  /** A field that is present, non-empty and free of the separator. */
  predicate Given(o: Option<string>) {
    o.Some? && o.value != "" && Sep !in o.value
  }

  /**
   * With every field given and free of the separator, after the step the
   * keyring reads back exactly the current fields, and a second step
   * changes nothing.
   */
  lemma RefreshStores(stored: Option<string>, f: Fields)
    requires Given(f.user) && Given(f.pswd) && Given(f.host) && Given(f.port)
    requires |GetCredentials(stored)| == 4
    ensures Refresh(stored, f).Ok?
    ensures GetCredentials(Refresh(stored, f).value) == [f.user, f.pswd, f.host, f.port]
    ensures Refresh(Refresh(stored, f).value, f) == Refresh(stored, f)
  {
    var s := GetCredentials(stored);
    if s[0] != f.user || s[1] != f.pswd || s[2] != f.host || s[3] != f.port {
      SavedRoundTrip(f);
    } else {
      assert s == [f.user, f.pswd, f.host, f.port];
    }
  }

  /** For fields free of the separator, repeating the step never changes the keyring again. */
  lemma RefreshIdempotent(stored: Option<string>, f: Fields)
    requires Refresh(stored, f).Ok?
    requires Sep !in Blank(f.user) && Sep !in Blank(f.pswd) && Sep !in Blank(f.host) && Sep !in Blank(f.port)
    ensures Refresh(Refresh(stored, f).value, f) == Refresh(stored, f)
  {
    if Refresh(stored, f).value != stored {
      SavedRoundTrip(f);
    }
  }
}
