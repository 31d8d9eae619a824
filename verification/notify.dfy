/**
 * The two notifiers, `send_email` and `send_discord`, and the gating in
 * `main` that decides which of them is attempted. SMTP and the webhook POST
 * are not modelled: a notifier yields the request it would send, and the
 * transport's success is a given flag.
 */
module Notify {
  import opened Wrappers

  /** The environment configuration, read once at start-up. */
  datatype Config = Config(
    countryCode: string,
    emailFrom: string,
    emailTo: string,
    emailPassword: string,
    discordWebhook: string)

  const StoreUrl: string := "https://store.steampowered.com/sale/steamdeckrefurbished"
  const EmbedTitle: string := "🎮 Steam Deck Disponible!"
  const EmbedColor: int := 0x00FF00
  const InStockLabel: string := "✅ EN STOCK"

  /** The alert mail: one HTML message listing `models`, sent from `sender` to `recipient`. */
  datatype Email = Email(sender: string, recipient: string, subject: string, models: seq<string>, countryCode: string)

  /** One line of the Discord embed. */
  datatype Field = Field(name: string, value: string, inline: bool)

  /** The Discord embed (its timestamp is not modelled). */
  datatype Embed = Embed(title: string, description: string, color: int, fields: seq<Field>, url: string)

  /** A notification attempt: an SMTP submission or a webhook POST. */
  datatype Request =
    | Mail(email: Email)
    | Post(url: string, embed: Embed)

  /** `all([EMAIL_FROM, EMAIL_TO, EMAIL_PASSWORD])`. */
  predicate EmailConfigured(cfg: Config) {
    cfg.emailFrom != "" && cfg.emailTo != "" && cfg.emailPassword != ""
  }

  function EmailSubject(countryCode: string): string {
    "🎮 ALERTE: Steam Deck Refurbished DISPONIBLE (" + countryCode + ")!"
  }

  function DiscordMessage(countryCode: string): string {
    "Nouveau stock détecté pour " + countryCode + "!"
  }

  /** The message `send_email` would submit, or None when a credential is empty. */
  function EmailRequest(cfg: Config, subject: string, models: seq<string>): (r: Option<Request>)
    ensures r.Some? <==> EmailConfigured(cfg)
    ensures r.Some? ==> r.value.Mail? && r.value.email.sender == cfg.emailFrom
                        && r.value.email.recipient == cfg.emailTo
                        && r.value.email.subject == subject && r.value.email.models == models
  {
    if !EmailConfigured(cfg) then None
    else Some(Mail(Email(cfg.emailFrom, cfg.emailTo, subject, models, cfg.countryCode)))
  }

  /** `send_email`'s result: true only if configured and the SMTP session succeeded. */
  function SendEmail(cfg: Config, subject: string, models: seq<string>, delivered: bool): (ok: bool)
    ensures ok <==> EmailConfigured(cfg) && delivered
  {
    EmailRequest(cfg, subject, models).Some? && delivered
  }

  /** The embed's `fields`: one inline "in stock" field per model, in order. */
  function Fields(models: seq<string>): (fields: seq<Field>)
    ensures |fields| == |models|
    ensures forall i :: 0 <= i < |models| ==> fields[i] == Field(models[i], InStockLabel, true)
    decreases |models|
  {
    if |models| == 0 then []
    else [Field(models[0], InStockLabel, true)] + Fields(models[1..])
  }

  /** The names shown by a list of fields. */
  function FieldNames(fields: seq<Field>): (names: seq<string>)
    ensures |names| == |fields|
  {
    seq(|fields|, i requires 0 <= i < |fields| => fields[i].name)
  }

  /** Reading the field names back gives the models, in order. */
  lemma {:induction false} FieldsRoundTrip(models: seq<string>)
    ensures FieldNames(Fields(models)) == models
  {
  }

  /** The POST `send_discord` would make, or None when no webhook is configured. */
  function DiscordRequest(cfg: Config, message: string, models: seq<string>): (r: Option<Request>)
    ensures r.Some? <==> cfg.discordWebhook != ""
    ensures r.Some? ==> r.value.Post? && r.value.url == cfg.discordWebhook
                        && r.value.embed.description == message
                        && FieldNames(r.value.embed.fields) == models
  {
    if cfg.discordWebhook == "" then None
    else
      FieldsRoundTrip(models);
      Some(Post(cfg.discordWebhook, Embed(EmbedTitle, message, EmbedColor, Fields(models), StoreUrl)))
  }

  /** `send_discord`'s result: true only if configured and the POST succeeded. */
  function SendDiscord(cfg: Config, message: string, models: seq<string>, delivered: bool): (ok: bool)
    ensures ok <==> cfg.discordWebhook != "" && delivered
  {
    DiscordRequest(cfg, message, models).Some? && delivered
  }

  function AsSeq<T>(o: Option<T>): seq<T> {
    if o.Some? then [o.value] else []
  }

  /** The models a request announces. */
  function Announced(q: Request): seq<string> {
    match q
    case Mail(email) => email.models
    case Post(_, embed) => FieldNames(embed.fields)
  }

  /**
   * The notification attempts of one run, in order. Nothing is sent unless
   * something is new; mail is attempted only with all three credentials
   * (`main` tests `EMAIL_FROM`, then `send_email` tests all three); the webhook
   * only when configured; each attempt announces exactly the new models. The
   * attempts are independent: a failed delivery does not stop the next one.
   */
  function Dispatch(cfg: Config, newly: seq<string>): (rs: seq<Request>)
    ensures |newly| == 0 ==> rs == []
    ensures |rs| <= 2
    ensures (exists k :: 0 <= k < |rs| && rs[k].Mail?) <==> |newly| > 0 && EmailConfigured(cfg)
    ensures (exists k :: 0 <= k < |rs| && rs[k].Post?) <==> |newly| > 0 && cfg.discordWebhook != ""
    ensures |rs| == 2 ==> rs[0].Mail? && rs[1].Post?
    ensures forall k :: 0 <= k < |rs| ==> Announced(rs[k]) == newly
  {
    if |newly| == 0 then []
    else
      var mail := if cfg.emailFrom != "" then EmailRequest(cfg, EmailSubject(cfg.countryCode), newly) else None;
      var post := if cfg.discordWebhook != "" then DiscordRequest(cfg, DiscordMessage(cfg.countryCode), newly) else None;
      var rs := AsSeq(mail) + AsSeq(post);
      assert mail.Some? ==> rs[0] == mail.value;
      assert post.Some? ==> rs[|rs| - 1] == post.value;
      rs
  }
}
