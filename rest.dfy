/**
 * The HTTP gateway's access rule (server/src/rest.rs): the allowed API keys come from the
 * comma-separated `API_PASSWORDS` variable, and a request is let through when no key is
 * configured or when its `X-API-Key` header is one of them.
 */
module Rest {
  import opened Wrappers
  import opened Text
  import opened Framing

  const Unauthorized: int := 401

  datatype Decision = Forward | Reject(code: int)

  /** The non-blank, trimmed pieces of `s` between commas. */
  function Keys(s: string): set<string> {
    var parts := Split(s, ',');
    set i | 0 <= i < |parts| && Trim(parts[i]) != "" :: Trim(parts[i])
  }

  /** `load_passwords`: an unset variable reads as the empty string. */
  function LoadPasswords(env: Option<string>): (keys: set<string>)
    ensures "" !in keys
    ensures forall k :: k in keys ==> Trimmed(k) && ',' !in k
  {
    var keys := Keys(env.GetOr(""));
    assert forall k :: k in keys ==> ',' !in k by {
      forall k | k in keys ensures ',' !in k {
        var parts := Split(env.GetOr(""), ',');
        var i :| 0 <= i < |parts| && Trim(parts[i]) == k;
        TrimIsInfix(parts[i]);
      }
    }
    keys
  }

  /** A trimmed string is a piece of the string it was trimmed from. */
  lemma TrimIsInfix(s: string)
    ensures forall c :: c in Trim(s) ==> c in s
  {
    var t := TrimStart(s);
    var r := TrimEnd(t);
    assert Trim(s) == r;
    TrimSlice(s, t, r);
    SliceMembers(s, |s| - |t|, |s| - |t| + |r|);
  }

  /** A list of keys (repeats allowed), each already trimmed, non-blank and free of commas,
      written comma-separated, loads back as exactly the set of those keys. */
  lemma LoadJoined(keys: seq<string>)
    requires keys != []
    requires forall i :: 0 <= i < |keys| ==> keys[i] != "" && Trimmed(keys[i]) && ',' !in keys[i]
    ensures LoadPasswords(Some(Join(keys, ','))) == set i | 0 <= i < |keys| :: keys[i]
  {
    SplitJoin(keys, ',');
  }

  /** With the variable unset there is no key at all. */
  lemma UnsetMeansNoKeys()
    ensures LoadPasswords(None) == {}
  {
    assert Split("", ',') == [""];
  }

  /** `HeaderValue::to_str`: the value as text when every byte is visible ASCII or a tab. */
  function HeaderText(value: seq<byte>): (text: Option<string>)
    ensures text.Some? <==> forall i :: 0 <= i < |value| ==> value[i] == 9 || 32 <= value[i] < 127
    ensures text.Some? ==> |text.value| == |value| && forall i :: 0 <= i < |value| ==> text.value[i] as int == value[i]
  {
    if forall i :: 0 <= i < |value| ==> value[i] == 9 || 32 <= value[i] < 127
    then Some(seq(|value|, i requires 0 <= i < |value| => value[i] as char))
    else None
  }

  /** `auth_middleware`. */
  function Authorize(keys: set<string>, apiKey: Option<seq<byte>>): Decision {
    if keys == {} then Forward
    else match apiKey
      case None => Reject(Unauthorized)
      case Some(v) =>
        match HeaderText(v)
        case None => Reject(Unauthorized)
        case Some(k) => if k in keys then Forward else Reject(Unauthorized)
  }

  /** The decision is "let through" exactly when no key is configured or the header carries
      one of the keys as text; every refusal is 401. */
  lemma AuthorizeExact(keys: set<string>, apiKey: Option<seq<byte>>)
    ensures Authorize(keys, apiKey) == Forward <==>
      keys == {} || (apiKey.Some? && HeaderText(apiKey.value).Some? && HeaderText(apiKey.value).value in keys)
    ensures Authorize(keys, apiKey) != Forward ==> Authorize(keys, apiKey) == Reject(Unauthorized)
  {
  }

  /** Once any key is configured, an empty `X-API-Key` is refused. */
  lemma EmptyKeyRefused(env: Option<string>)
    requires LoadPasswords(env) != {}
    ensures Authorize(LoadPasswords(env), Some([])) == Reject(Unauthorized)
  {
    assert HeaderText([]) == Some("");
  }

  /** Without `API_PASSWORDS`, every request is let through. */
  lemma UnsetLetsEverythingThrough(apiKey: Option<seq<byte>>)
    ensures Authorize(LoadPasswords(None), apiKey) == Forward
  {
    UnsetMeansNoKeys();
  }
}
