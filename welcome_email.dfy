/**
 * The welcome-email template: its identifier, the shape guard that tells whether
 * a notification's `data` can be rendered by it, and the default preview line.
 */
module WelcomeEmail {
  import opened Wrappers
  import opened Json

  /** The template identifier under which the template is registered. */
  const WelcomeEmailTemplate: string := "welcome-email"

  /** The preview line used when the data carries none. */
  const DefaultPreview: string := "Welcome to cobain\U{00A9}!"

  /** The typed properties the template renders: `{ email: string, preview?: string }`. */
  datatype Props = Props(email: string, preview: Option<string>)

  /** The type guard on untyped `data`: `data?.email` is a string, and `data.preview`
      is a string or `undefined`. */
  predicate IsWelcomeEmailData(data: Value)
    ensures IsWelcomeEmailData(data) ==> data.Obj? && "email" in data.fields
  {
    Member(data, "email").Str?
    && (Member(data, "preview").Str? || Member(data, "preview").Undefined?)
  }

  /** The typed view of data the guard accepted (what the `data is WelcomeEmailProps`
      narrowing gives the caller). */
  function AsProps(data: Value): (p: Props)
    requires IsWelcomeEmailData(data)
    ensures Member(data, "email") == Str(p.email)
    ensures p.preview.None? <==> Member(data, "preview") == Undefined
    ensures p.preview.Some? ==> Member(data, "preview") == Str(p.preview.value)
  {
    var preview := Member(data, "preview");
    Props(Member(data, "email").s, if preview.Str? then Some(preview.s) else None)
  }

  /** The properties written out as an object literal; an absent preview is an absent field. */
  function ToData(p: Props): (d: Value)
    ensures d.Obj?
  {
    match p.preview
    case None => Obj(map["email" := Str(p.email)])
    case Some(pv) => Obj(map["email" := Str(p.email), "preview" := Str(pv)])
  }

  /** The preview `WelcomeEmail` passes on to its layout: the one given, or the default. */
  function EffectivePreview(p: Props): (r: string)
    ensures p.preview.Some? ==> r == p.preview.value
    ensures p.preview.None? ==> r == DefaultPreview
  {
    match p.preview
    case Some(pv) => pv
    case None => DefaultPreview
  }

  /** The sample data the template preview renders with: only an email, no preview. */
  const PreviewProps: Value := Obj(map["email" := Str("subscriber@example.com")])

  /** The guard in terms of the object itself: an object whose `email` field is a
      string and whose `preview` field, if present, is a string or `undefined`. */
  lemma GuardCharacterization(data: Value)
    ensures IsWelcomeEmailData(data) <==>
      data.Obj? && "email" in data.fields && data.fields["email"].Str?
      && ("preview" in data.fields ==> data.fields["preview"].Str? || data.fields["preview"].Undefined?)
  {
  }

  /** Whatever `preview` is, data without a string `email` is refused. */
  lemma GuardRequiresStringEmail(data: Value)
    requires !Member(data, "email").Str?
    ensures !IsWelcomeEmailData(data)
  {
  }

  /** A `preview` that is present but neither a string nor `undefined` is refused,
      even next to a string `email`. */
  lemma GuardRejectsNonStringPreview(data: Value)
    requires Member(data, "email").Str?
    requires !Member(data, "preview").Str? && !Member(data, "preview").Undefined?
    ensures !IsWelcomeEmailData(data)
  {
  }

  /** Every well-typed `Props` value passes the guard, and the guard's typed view
      gives it back unchanged. */
  lemma PropsRoundTrip(p: Props)
    ensures IsWelcomeEmailData(ToData(p))
    ensures AsProps(ToData(p)) == p
  {
  }

  /** Accepted data written back out agrees with the original on both fields the
      template reads. */
  lemma DataRoundTrip(data: Value)
    requires IsWelcomeEmailData(data)
    ensures Member(ToData(AsProps(data)), "email") == Member(data, "email")
    ensures Member(ToData(AsProps(data)), "preview") == Member(data, "preview")
  {
  }

  /** The preview sample passes the guard and renders with the default preview. */
  lemma PreviewPropsAccepted()
    ensures IsWelcomeEmailData(PreviewProps)
    ensures AsProps(PreviewProps) == Props("subscriber@example.com", None)
    ensures EffectivePreview(AsProps(PreviewProps)) == DefaultPreview
  {
  }
}
