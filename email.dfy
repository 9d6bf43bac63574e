/** The notification e-mail for a new artwork (lib/email.ts): the subject and
    HTML body composed from the artwork's data, with fallbacks for a missing
    user or artist name, and a send that catches and logs transport errors. */
module Email {
  import opened Common

  /** The arguments of `sendNewArtworkEmail`. */
  datatype ArtworkEmailProps = ArtworkEmailProps(
    userEmail: string,
    userName: Option<string>,
    artworkTitle: string,
    artworkImage: string,
    artworkUrl: string,
    artistName: Option<string>,
    category: string)

  /** The message handed to the mail transport. */
  datatype EmailMessage = EmailMessage(from: string, to: string, subject: string, html: string)

  const Sender: string := "Art Gallery <notifications@yourdomain.com>"

  /** The salutation line; "there" stands in for a missing or empty name. */
  function Greeting(p: ArtworkEmailProps): string {
    "<p>Hi " + OrElse(p.userName, "there") + ",</p>"
  }

  /** The artist line; "Unknown Artist" stands in for a missing or empty name. */
  function ArtistLine(p: ArtworkEmailProps): string {
    "<p>By " + OrElse(p.artistName, "Unknown Artist") + "</p>"
  }

  function ImageSource(p: ArtworkEmailProps): string {
    "src=\"" + p.artworkImage + "\""
  }

  function ImageTag(p: ArtworkEmailProps): string {
    "<img " + ImageSource(p) + " alt=\"" + p.artworkTitle
      + "\" style=\"max-width: 100%; border-radius: 8px;\" />"
  }

  function TitleHeading(p: ArtworkEmailProps): string {
    "<h2 style=\"color: #1a1a1a;\">" + p.artworkTitle + "</h2>"
  }

  function LinkTarget(p: ArtworkEmailProps): string {
    "href=\"" + p.artworkUrl + "\""
  }

  function LinkOpen(p: ArtworkEmailProps): string {
    "<a " + LinkTarget(p)
  }

  // The fixed markup between the interpolated parts of the template.
  const Head: string :=
    "\n        <div style=\"font-family: sans-serif; max-width: 600px; margin: 0 auto;\">"
    + "\n          <h1 style=\"color: #1a1a1a;\">New Artwork You Might Like</h1>\n          "
  const Intro: string := "\n          <p>We found a new artwork that matches your interests in "
  const BeforeImage: string := ":</p>\n          \n          <div style=\"margin: 24px 0;\">\n            "
  const AfterImage: string := "\n          </div>\n          \n          "
  const BeforeArtist: string := "\n          "
  const BeforeLink: string := "\n          \n          "
  const LinkRest: string :=
    " style=\"\n            display: inline-block;\n            background-color: #2563eb;"
    + "\n            color: white;\n            padding: 12px 24px;\n            text-decoration: none;"
    + "\n            border-radius: 6px;\n            margin-top: 16px;\n          \">"
    + "\n            View Artwork\n          </a>\n          \n          <p style=\"margin-top: 32px; color: #666;\">"
    + "\n            You're receiving this email because you've subscribed to notifications for "
  const Tail: string :=
    " artworks.\n            <br>\n            <a href=\"[unsubscribe_url]\" style=\"color: #2563eb;\">Manage your preferences</a>"
    + "\n          </p>\n        </div>\n      "

  function Subject(p: ArtworkEmailProps): string {
    "New " + p.category + " Artwork: " + p.artworkTitle
  }

  /** The template's parts in order: fixed markup alternating with interpolated values. */
  function Parts(p: ArtworkEmailProps): seq<string> {
    [Head, Greeting(p), Intro, p.category, BeforeImage, ImageTag(p), AfterImage,
     TitleHeading(p), BeforeArtist, ArtistLine(p), BeforeLink, LinkOpen(p), LinkRest,
     p.category, Tail]
  }

  function Html(p: ArtworkEmailProps): string {
    Concat(Parts(p))
  }

  /** The message `sendNewArtworkEmail` hands to the transport. */
  function Compose(p: ArtworkEmailProps): (m: EmailMessage)
    ensures m.from == Sender && m.to == p.userEmail
    ensures m.subject == Subject(p)
    ensures Contains(m.html, Greeting(p))
    ensures Contains(m.html, ImageTag(p))
    ensures Contains(m.html, TitleHeading(p))
    ensures Contains(m.html, ArtistLine(p))
    ensures Contains(m.html, LinkOpen(p))
  {
    var parts := Parts(p);
    ConcatContainsPart(parts, 1);
    ConcatContainsPart(parts, 5);
    ConcatContainsPart(parts, 7);
    ConcatContainsPart(parts, 9);
    ConcatContainsPart(parts, 11);
    EmailMessage(Sender, p.userEmail, Subject(p), Html(p))
  }

  /** The subject reads "New <category> Artwork: <title>": it starts with the
      category after "New " and ends with the title. */
  lemma SubjectShape(p: ArtworkEmailProps)
    ensures var s := Compose(p).subject;
      && StartsWith(s, "New " + p.category + " Artwork: ")
      && s[|s| - |p.artworkTitle|..] == p.artworkTitle
      && |s| == 4 + |p.category| + 10 + |p.artworkTitle|
  {
    var s := Compose(p).subject;
    assert s == ("New " + p.category + " Artwork: ") + p.artworkTitle;
  }

  /** Without a usable user name the greeting is "Hi there,"; with one, it is used verbatim. */
  lemma GreetingFallback(p: ArtworkEmailProps)
    ensures !Truthy(p.userName) ==> Contains(Compose(p).html, "<p>Hi there,</p>")
    ensures Truthy(p.userName) ==> Contains(Compose(p).html, "<p>Hi " + p.userName.value + ",</p>")
  {
    if !Truthy(p.userName) {
      AnonymousGreeting(p);
      ContainsSame(Compose(p).html, Greeting(p), "<p>Hi there,</p>");
    }
  }

  lemma AnonymousGreeting(p: ArtworkEmailProps)
    requires !Truthy(p.userName)
    ensures Greeting(p) == "<p>Hi there,</p>"
  {
  }

  /** Without a usable artist name the artist line reads "By Unknown Artist"; with one, it is used verbatim. */
  lemma ArtistFallback(p: ArtworkEmailProps)
    ensures !Truthy(p.artistName) ==> Contains(Compose(p).html, "<p>By Unknown Artist</p>")
    ensures Truthy(p.artistName) ==> Contains(Compose(p).html, "<p>By " + p.artistName.value + "</p>")
  {
    if !Truthy(p.artistName) {
      UnknownArtistLine(p);
      ContainsSame(Compose(p).html, ArtistLine(p), "<p>By Unknown Artist</p>");
    }
  }

  lemma UnknownArtistLine(p: ArtworkEmailProps)
    requires !Truthy(p.artistName)
    ensures ArtistLine(p) == "<p>By Unknown Artist</p>"
  {
  }

  lemma ContainsSame(h: string, a: string, b: string)
    requires Contains(h, a) && a == b
    ensures Contains(h, b)
  {
  }

  /** The body shows the title, the image reference and links to the artwork page. */
  lemma BodyMentionsArtwork(p: ArtworkEmailProps)
    ensures Contains(Compose(p).html, p.artworkTitle)
    ensures Contains(Compose(p).html, ImageSource(p))
    ensures Contains(Compose(p).html, LinkTarget(p))
  {
    var h := Compose(p).html;
    TitleInside(h, p);
    ImageSourceInside(h, p);
    LinkTargetInside(h, p);
  }

  lemma TitleInside(h: string, p: ArtworkEmailProps)
    requires Contains(h, TitleHeading(p))
    ensures Contains(h, p.artworkTitle)
  {
    ContainsTransitive(h, TitleHeading(p), p.artworkTitle, "<h2 style=\"color: #1a1a1a;\">", "</h2>");
  }

  lemma ImageSourceInside(h: string, p: ArtworkEmailProps)
    requires Contains(h, ImageTag(p))
    ensures Contains(h, ImageSource(p))
  {
    ContainsTransitive(h, ImageTag(p), ImageSource(p), "<img ",
      " alt=\"" + p.artworkTitle + "\" style=\"max-width: 100%; border-radius: 8px;\" />");
  }

  lemma LinkTargetInside(h: string, p: ArtworkEmailProps)
    requires Contains(h, LinkOpen(p))
    ensures Contains(h, LinkTarget(p))
  {
    ContainsTransitive(h, LinkOpen(p), LinkTarget(p), "<a ", "");
  }

  /** If `outer` occurs in `s` and `outer` is `a + inner + b`, then `inner` occurs in `s`. */
  lemma ContainsTransitive(s: string, outer: string, inner: string, a: string, b: string)
    requires Contains(s, outer)
    requires outer == a + inner + b
    ensures Contains(s, inner)
  {
    var k :| 0 <= k <= |s| && StartsWith(s[k..], outer);
    assert s[k + |a|..][..|inner|] == outer[|a|..|a| + |inner|] == inner;
    assert StartsWith(s[k + |a|..], inner);
  }

  /** What the transport reported for one message. */
  datatype Transport = Accepted | Rejected(error: string)

  /** What one call of `sendNewArtworkEmail` did: the message it handed to the
      transport, and the error it logged, if any. It always returns normally. */
  datatype SendReport = SendReport(message: EmailMessage, logged: Option<string>)

  /** `sendNewArtworkEmail`: the transport is a parameter; a rejection is caught
      and logged, never passed to the caller. */
  function SendNewArtworkEmail(p: ArtworkEmailProps, transport: Transport): (r: SendReport)
    ensures r.message == Compose(p)
    ensures r.logged.Some? <==> transport.Rejected?
    ensures transport.Rejected? ==> r.logged == Some(transport.error)
  {
    match transport
    case Accepted => SendReport(Compose(p), None)
    case Rejected(e) => SendReport(Compose(p), Some(e))
  }
}
