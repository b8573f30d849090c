/** The control plane's verdict on a presented ingest API key. Key digests are modelled by the
    keys themselves: SHA-256 is taken to be injective. Times are nanoseconds. */
module IngestAuth {
  import opened Prelude

  /** One api_keys row joined with its customer. */
  datatype ApiKey = ApiKey(secret: string, prefix: string, revoked: bool, expiresAt: Option<int>,
                           customerActive: bool, clientId: string)

  /** How long the gateway may cache a positive verdict. */
  const CACHE_TTL_SECONDS := 30

  datatype Verdict = Invalid | Valid(clientId: string, ttlSeconds: int)

  predicate IsHex(c: char) {
    '0' <= c <= '9' || 'a' <= c <= 'f'
  }

  /** The clear prefix of a key of the shape otm_<8 hex>_<secret>. */
  function ParsePrefix(key: string): Option<string> {
    if |key| > 13 && key[..4] == "otm_" && (forall c <- key[4..12] :: IsHex(c)) && key[12] == '_'
    then Some(key[..12]) else None
  }

  /** The rows the lookup query returns: unrevoked ones with the prefix, in table order. */
  function ActiveKeysByPrefix(rows: seq<ApiKey>, prefix: string): seq<ApiKey> {
    if rows == [] then [] else
    (if rows[0].prefix == prefix && !rows[0].revoked then [rows[0]] else [])
      + ActiveKeysByPrefix(rows[1..], prefix)
  }

  function FirstMatch(keys: seq<ApiKey>, key: string): Option<ApiKey> {
    if keys == [] then None else
    if keys[0].secret == key then Some(keys[0]) else FirstMatch(keys[1..], key)
  }

  function Validate(rows: seq<ApiKey>, key: string, now: int): Verdict {
    var prefix := ParsePrefix(key);
    if prefix.None? then Invalid else
    var m := FirstMatch(ActiveKeysByPrefix(rows, prefix.value), key);
    if m.None? then Invalid else
    if m.value.expiresAt.Some? && m.value.expiresAt.value <= now then Invalid else
    if !m.value.customerActive then Invalid else
    Valid(m.value.clientId, CACHE_TTL_SECONDS)
  }

  /** A row that entitles the key's bearer at the given time. */
  predicate Entitles(row: ApiKey, key: string, now: int) {
    && row.secret == key && !row.revoked && row.customerActive
    && (row.expiresAt.Some? ==> now < row.expiresAt.value)
  }

  lemma {:induction false} ActiveRows(rows: seq<ApiKey>, prefix: string, row: ApiKey)
    ensures row in ActiveKeysByPrefix(rows, prefix) <==> row in rows && row.prefix == prefix && !row.revoked
  {
    if rows != [] {
      ActiveRows(rows[1..], prefix, row);
    }
  }

  lemma {:induction false} FirstMatchIs(keys: seq<ApiKey>, key: string)
    ensures var m := FirstMatch(keys, key);
            match m
            case Some(row) => row in keys && row.secret == key
            case None => forall row <- keys :: row.secret != key
  {
    if keys != [] && keys[0].secret != key {
      FirstMatchIs(keys[1..], key);
    }
  }

  /** A positive verdict rests on a row that entitles the bearer. */
  lemma ValidNeedsRow(rows: seq<ApiKey>, key: string, now: int)
    requires Validate(rows, key, now).Valid?
    ensures exists row <- rows :: Entitles(row, key, now) && Validate(rows, key, now).clientId == row.clientId
  {
    var keys := ActiveKeysByPrefix(rows, ParsePrefix(key).value);
    FirstMatchIs(keys, key);
    var row := FirstMatch(keys, key).value;
    ActiveRows(rows, ParsePrefix(key).value, row);
  }

  /** If no two unrevoked rows carry the same key, and rows are filed under their key's prefix,
      the verdict is positive exactly for well-formed keys with an entitling row. */
  lemma ValidExactly(rows: seq<ApiKey>, key: string, now: int)
    requires forall a <- rows, b <- rows :: !a.revoked && !b.revoked && a.secret == b.secret ==> a == b
    requires forall a <- rows :: ParsePrefix(a.secret) == Some(a.prefix)
    ensures Validate(rows, key, now).Valid? <==> exists row <- rows :: Entitles(row, key, now)
  {
    if Validate(rows, key, now).Valid? {
      ValidNeedsRow(rows, key, now);
    }
    forall row <- rows | Entitles(row, key, now) ensures Validate(rows, key, now).Valid? {
      var keys := ActiveKeysByPrefix(rows, row.prefix);
      ActiveRows(rows, row.prefix, row);
      FirstMatchIs(keys, key);
      var m := FirstMatch(keys, key).value;
      ActiveRows(rows, row.prefix, m);
    }
  }

  /** The scan over the candidate rows, stopping at the first match. */
  method ValidateAPIKey(rows: seq<ApiKey>, key: string, now: int) returns (v: Verdict)
    ensures v == Validate(rows, key, now)
  {
    var prefix := ParsePrefix(key);
    if prefix.None? {
      return Invalid;
    }
    var keys := ActiveKeysByPrefix(rows, prefix.value);
    var found: Option<ApiKey> := None;
    for i := 0 to |keys|
      invariant found.None?
      invariant FirstMatch(keys, key) == FirstMatch(keys[i..], key)
    {
      assert keys[i..][1..] == keys[i + 1..];
      if keys[i].secret == key {
        found := Some(keys[i]);
        break;
      }
    }
    if found.None? {
      return Invalid;
    }
    if found.value.expiresAt.Some? && found.value.expiresAt.value <= now {
      return Invalid;
    }
    if !found.value.customerActive {
      return Invalid;
    }
    return Valid(found.value.clientId, CACHE_TTL_SECONDS);
  }
}
