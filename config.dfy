/**
 * The validators of the Python settings object: the CORS origin list, the
 * blank Sentry DSN and the derived "emails enabled" flag.
 */
module Config {
  import opened Common

  /** A raw setting value as the validators receive it. */
  datatype SettingValue = SStr(s: string) | SList(items: seq<string>) | SOther

  /**
   * `assemble_cors_origins`: a string not starting with "[" becomes its
   * comma-separated pieces, each stripped; a list or a "[" string passes
   * through unchanged; anything else is a ValueError.
   */
  function AssembleCorsOrigins(v: SettingValue): (r: Result<SettingValue, SettingValue>)
    ensures v.SStr? && !StartsWith(v.s, "[") ==>
      && r.Ok? && r.value.SList?
      && |r.value.items| == Count(v.s, ',') + 1
      && (forall k :: 0 <= k < |r.value.items| ==> r.value.items[k] == Strip(Split(v.s, ',')[k]))
      && (forall k :: 0 <= k < |r.value.items| ==> IsStripped(r.value.items[k]) && ',' !in r.value.items[k])
    ensures v.SList? || (v.SStr? && StartsWith(v.s, "[")) ==> r == Ok(v)
    ensures v.SOther? ==> r == Err(v)
  {
    match v
    case SStr(s) =>
      if !StartsWith(s, "[") then
        var pieces := Split(s, ',');
        Ok(SList(StripEach(pieces)))
      else Ok(v)
    case SList(_) => Ok(v)
    case SOther => Err(v)
  }

  /** `[i.strip() for i in pieces]`. */
  function StripEach(pieces: seq<string>): (r: seq<string>)
    ensures |r| == |pieces|
    ensures forall k :: 0 <= k < |r| ==> r[k] == Strip(pieces[k])
  {
    seq(|pieces|, k requires 0 <= k < |pieces| => Strip(pieces[k]))
  }

  lemma StripEachStripped(pieces: seq<string>)
    requires forall k :: 0 <= k < |pieces| ==> IsStripped(pieces[k])
    ensures StripEach(pieces) == pieces
  {
    forall k | 0 <= k < |pieces| ensures StripEach(pieces)[k] == pieces[k] {
      StripIdempotent(pieces[k]);
    }
  }

  /** Splitting a join of comma-free pieces gives the pieces back. */
  lemma {:induction false} SplitJoin(xs: seq<string>, sep: char)
    requires xs != []
    requires forall k :: 0 <= k < |xs| ==> sep !in xs[k]
    ensures Split(Join(xs, sep), sep) == xs
  {
    if |xs| == 1 {
      SplitWithoutSeparator(xs[0], sep);
    } else {
      SplitJoin(xs[1..], sep);
      SplitAround(xs[0], Join(xs[1..], sep), sep);
      assert [xs[0]] + xs[1..] == xs;
    }
  }

  /** Origins that are already stripped and comma-free survive being joined with commas and parsed. */
  lemma CorsRoundTrip(origins: seq<string>)
    requires origins != []
    requires forall k :: 0 <= k < |origins| ==> IsStripped(origins[k]) && ',' !in origins[k]
    requires !StartsWith(Join(origins, ','), "[")
    ensures AssembleCorsOrigins(SStr(Join(origins, ','))) == Ok(SList(origins))
  {
    SplitJoin(origins, ',');
    StripEachStripped(origins);
  }

  /** `sentry_dsn_can_be_blank`: None and the empty string become None; anything else is kept. */
  function SentryDsn(v: Option<string>): (r: Option<string>)
    ensures r.None? <==> v.None? || v.value == ""
    ensures r.Some? ==> r == v
  {
    if v.None? || |v.value| == 0 then None else v
  }

  /** SENTRY_DSN normalisation is idempotent. */
  lemma SentryDsnIdempotent(v: Option<string>)
    ensures SentryDsn(SentryDsn(v)) == SentryDsn(v)
  {
  }

  /**
   * `get_emails_enabled`: true iff SMTP_HOST, SMTP_PORT and
   * EMAILS_FROM_EMAIL are all truthy among the values seen; the supplied
   * value is ignored.
   */
  function EmailsEnabled(v: JsonValue, values: map<string, JsonValue>): (r: bool)
    ensures r ==> "SMTP_HOST" in values && "SMTP_PORT" in values && "EMAILS_FROM_EMAIL" in values
    ensures r <==> Truthy(Get(values, "SMTP_HOST")) && Truthy(Get(values, "SMTP_PORT")) && Truthy(Get(values, "EMAILS_FROM_EMAIL"))
  {
    Truthy(Get(values, "SMTP_HOST")) && Truthy(Get(values, "SMTP_PORT")) && Truthy(Get(values, "EMAILS_FROM_EMAIL"))
  }

  /** The flag depends on the three settings alone, never on the supplied value. */
  lemma EmailsEnabledIgnoresValue(v1: JsonValue, v2: JsonValue, values: map<string, JsonValue>, other: map<string, JsonValue>)
    requires Get(values, "SMTP_HOST") == Get(other, "SMTP_HOST")
    requires Get(values, "SMTP_PORT") == Get(other, "SMTP_PORT")
    requires Get(values, "EMAILS_FROM_EMAIL") == Get(other, "EMAILS_FROM_EMAIL")
    ensures EmailsEnabled(v1, values) == EmailsEnabled(v2, other)
  {
  }
}
