/**
 * The points-update edge function: it answers the CORS pre-flight, reads the
 * change from the request body, composes a level-up, gain or loss mail and
 * hands it to the mail service.  The mail is modelled by its recipient,
 * subject, greeting and the figures and banner it shows; the HTML around
 * them is not.
 */
module PointsMail {
  import opened Wrappers
  import opened Json
  import opened Rows
  import Http
  import Text
  import Store
  import Loyalty

  datatype MailKind = LevelUpMail | GainMail | LoseMail

  datatype Mail = Mail(
    to: Option<string>,
    subject: string,
    greeting: string,
    kind: MailKind,
    shownLevel: string,
    shownPoints: string,
    toNextPrize: Option<int>,
    banner: bool)

  const GainSubject: string := "\U{1F389} \U{A1}Gracias por tu rese\U{F1}a, has ganado 5 puntos!"
  const LoseSubject: string := "\U{26A0}\U{FE0F} Has eliminado una rese\U{F1}a y has perdido puntos"

  function LevelUpSubject(level: Option<int>): string {
    "\U{1F389} \U{A1}Has subido al nivel " + RenderInt(level) + "!"
  }

  /** `${n}` for a number that may be absent. */
  function RenderInt(n: Option<int>): string {
    match n
    case None => "undefined"
    case Some(i) => Text.IntToString(i)
  }

  /** `${name || email}`: the name when it is filled in, otherwise the e-mail as it came,
      and "undefined" when there is no e-mail either. */
  function Greeting(name: Option<string>, email: Option<string>): (g: string)
    ensures Some(g) == name || Some(g) == email || g == "undefined"
    ensures g == "" <==> (name.None? || name.value == "") && email == Some("")
    ensures name.Some? && name.value != "" ==> g == name.value
    ensures (name.None? || name.value == "") && email.Some? ==> g == email.value
    ensures (name.None? || name.value == "") && email.None? ==> g == "undefined"
  {
    if name.Some? && name.value != "" then name.value
    else if email.Some? then email.value
    else "undefined"
  }

  /** `100 - (points % 100)`: absent points give `NaN`, here `None`. */
  function ToNextPrize(points: Option<int>): (r: Option<int>)
    ensures r.Some? <==> points.Some?
    ensures points.Some? && points.value >= 0 ==> r == Some(Loyalty.PointsToNext(points.value))
  {
    match points
    case None => None
    case Some(p) => Some(100 - Loyalty.JsRem(p, 100))
  }

  /** `points >= 100 && points % 100 < 5`: the "you went up a level" banner. */
  predicate Banner(points: Option<int>) {
    points.Some? && points.value >= 100 && Loyalty.JsRem(points.value, 100) < 5
  }

  /** The mail for a change: `levelup` names the level; `gain` thanks; anything else,
      a missing type included, is the loss mail. */
  function Compose(c: ChangeRequest): (m: Mail)
    ensures m.to == c.email && m.greeting == Greeting(c.name, c.email)
    ensures c.changeType == Some("levelup") <==> m.kind == LevelUpMail
    ensures c.changeType == Some("gain") <==> m.kind == GainMail
    ensures m.kind == LevelUpMail ==> m.subject == LevelUpSubject(c.level) && !m.banner
    ensures m.kind == GainMail ==> m.subject == GainSubject
    ensures m.kind == LoseMail ==> m.subject == LoseSubject
    ensures m.kind != LevelUpMail ==> m.toNextPrize == ToNextPrize(c.points) && m.banner == Banner(c.points)
  {
    var greeting := Greeting(c.name, c.email);
    if c.changeType == Some("levelup") then
      Mail(c.email, LevelUpSubject(c.level), greeting, LevelUpMail, RenderInt(c.level), "", None, false)
    else
      var kind := if c.changeType == Some("gain") then GainMail else LoseMail;
      Mail(c.email, if kind == GainMail then GainSubject else LoseSubject, greeting, kind,
           "", RenderInt(c.points), ToNextPrize(c.points), Banner(c.points))
  }

  /** For a non-negative total the banner shows exactly in the first five points of a level above 0. */
  lemma BannerMeansFreshLevel(p: int)
    requires p >= 0
    ensures Banner(Some(p)) <==> Loyalty.Level(p) >= 1 && Loyalty.Progress(p) < 5
  {
  }

  /** The gain mail carries the banner exactly when the review's 5 points crossed into a new level. */
  lemma GainBannerIffLevelCrossed(stored: int)
    requires stored >= 0
    ensures var total := Loyalty.Gain(Some(stored));
      Banner(Some(total)) <==> Loyalty.Level(total) > Loyalty.Level(stored)
  {
    var total := Loyalty.Gain(Some(stored));
    Loyalty.GainCrossesLevel(stored);
    BannerMeansFreshLevel(total);
  }

  /** The loss mail also shows the level-up banner, for instance for a new total of 102. */
  lemma LossMailCanShowBanner()
    ensures Compose(ChangeRequest(Some("a@b.es"), None, Some(102), Some("lose"), None)).banner
  {
    assert Loyalty.JsRem(102, 100) == 2;
  }

  /** The whole function: pre-flight, then compose and send; a throw while sending is a 500. */
  method Handle(req: Http.Request<ChangeRequest>, mailer: Store.Outbox<Mail>) returns (resp: Http.Response)
    modifies mailer
    ensures req.verb == "OPTIONS" ==> resp == Http.PreflightOk && mailer.sent == old(mailer.sent)
    ensures req.verb != "OPTIONS" && req.body.None? ==> resp == Http.Crashed && mailer.sent == old(mailer.sent)
    ensures req.verb != "OPTIONS" && req.body.Some? ==>
      (resp == Http.Success(200, true) && mailer.sent == old(mailer.sent) + [Compose(req.body.value)])
      || (resp == SendFailed && mailer.sent == old(mailer.sent))
  {
    if req.verb == "OPTIONS" {
      return Http.PreflightOk;
    }
    if req.body.None? {
      return Http.Crashed;
    }
    var delivered := mailer.Send(Compose(req.body.value));
    if delivered {
      resp := Http.Success(200, true);
    } else {
      resp := SendFailed;
    }
  }

  /** `{ success: false, error }` with status 500. */
  const SendFailed: Http.Response := Http.JsonReply(500, map["success" := JBool(false), "error" := JObj(map[])])
}
