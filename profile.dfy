/**
 * The profile page's state: the point total and level it shows, the stored
 * level it keeps in step with them, its lightbox slides, and deleting one of
 * the user's reviews.
 */
module Profile {
  import opened Wrappers
  import opened Json
  import opened Rows
  import Store
  import Loyalty
  import Reviews
  import PointsMail

  /** The level of a profile row, `profile.level || 0`. */
  function StoredLevel(row: ProfileRow): int {
    row.level.GetOr(0)
  }

  /** The body of `sendLevelUpEmail(email, name, level)`. */
  function LevelUpRequest(email: string, name: string, level: int): (c: ChangeRequest)
    ensures PointsMail.Compose(c).kind == PointsMail.LevelUpMail
    ensures PointsMail.Compose(c).subject == PointsMail.LevelUpSubject(Some(level))
    ensures PointsMail.Compose(c).to == Some(email)
  {
    ChangeRequest(Some(email), Some(name), None, Some("levelup"), Some(level))
  }

  /** `a || b` on texts: one of the two, the first whenever it is filled in, and empty only
      when neither is filled in. */
  function OrText(a: Option<string>, b: string): (r: string)
    ensures r == b || Some(r) == a
    ensures a.Some? && a.value != "" ==> r == a.value
    ensures r == "" <==> (a.None? || a.value == "") && b == ""
  {
    if a.Some? && a.value != "" then a.value else b
  }

  class ProfilePage {
    const user: SessionUser
    var points: int
    var serverLevel: int
    var name: string
    var allSlides: seq<Reviews.Slide>
    var selectedIndex: Option<int>

    constructor (user: SessionUser)
      ensures this.user == user && points == 0 && serverLevel == 0 && name == ""
      ensures allSlides == [] && selectedIndex.None?
    {
      this.user := user;
      points := 0;
      serverLevel := 0;
      name := "";
      allSlides := [];
      selectedIndex := None;
    }

    /** No stored row of this user is above the level the page believes is stored. */
    ghost predicate StoredLevelKnown(profiles: Store.Table<ProfileRow>)
      reads this, profiles
    {
      forall k :: k in profiles.rows && profiles.rows[k].email == user.email ==> StoredLevel(profiles.rows[k]) <= serverLevel
    }

    /** The page shows `row`: `points || 0`, `level || 0`, and the name with its fallbacks. */
    ghost predicate ShowsRow(row: ProfileRow)
      reads this
    {
      points == row.points.GetOr(0) && serverLevel == StoredLevel(row)
      && name == OrText(row.name, OrText(user.metaName, ""))
    }

    /** `fetchProfile`: the single profile row with the user's e-mail sets points, stored level and name. */
    method LoadProfile(profiles: Store.Table<ProfileRow>) returns (found: bool)
      requires profiles.Valid()
      modifies this`points, this`serverLevel, this`name
      ensures found ==> exists k :: Store.IsOnlyMatch(profiles.rows, (r: ProfileRow) => r.email == user.email, k) && ShowsRow(profiles.rows[k])
      ensures found ==> StoredLevelKnown(profiles)
      ensures !found ==> points == old(points) && serverLevel == old(serverLevel) && name == old(name)
    {
      var email := user.email;
      var row := profiles.Single((r: ProfileRow) => r.email == email);
      found := row.Some?;
      if found {
        var p := row.value.1;
        points := p.points.GetOr(0);
        serverLevel := StoredLevel(p);
        name := OrText(p.name, OrText(user.metaName, ""));
      }
    }

    /** The level-sync effect, run whenever `points` changes: when the derived level is above
        the stored one, write it, raise `serverLevel` and request one 'levelup' mail.  The
        write's result is not checked. */
    method SyncLevel(profiles: Store.Table<ProfileRow>, outbox: Store.Outbox<ChangeRequest>)
      requires profiles.Valid()
      modifies this`serverLevel, profiles, outbox
      ensures profiles.Valid()
      ensures serverLevel == Loyalty.SyncedLevel(points, old(serverLevel))
      ensures Loyalty.LevelToAnnounce(points, old(serverLevel)).None? ==>
        profiles.rows == old(profiles.rows) && outbox.sent == old(outbox.sent)
      ensures Loyalty.LevelToAnnounce(points, old(serverLevel)).Some? ==>
        var l := Loyalty.Level(points);
        (profiles.rows == old(profiles.rows)
          || profiles.rows == Store.UpdatedRows(old(profiles.rows), (r: ProfileRow) => r.email == user.email,
                                                (r: ProfileRow) => r.(level := Some(l))))
        && (outbox.sent == old(outbox.sent)
          || outbox.sent == old(outbox.sent) + [LevelUpRequest(user.email, OrText(Some(name), OrText(user.metaName, "")), l)])
      ensures old(StoredLevelKnown(profiles)) ==> StoredLevelKnown(profiles)
      ensures old(StoredLevelKnown(profiles)) ==> forall k :: k in old(profiles.rows) ==>
        k in profiles.rows && StoredLevel(profiles.rows[k]) >= StoredLevel(old(profiles.rows)[k])
    {
      var current := Loyalty.Level(points);
      if current > serverLevel {
        var email := user.email;
        var _ := profiles.UpdateWhere((r: ProfileRow) => r.email == email, (r: ProfileRow) => r.(level := Some(current)));
        serverLevel := current;
        var _ := outbox.Send(LevelUpRequest(email, OrText(Some(name), OrText(user.metaName, "")), current));
      }
    }

    /** The slides effect.  A parse failure throws out of the effect, and with no error
        boundary around it the page is torn down: `crashed` reports it, and no slide is set. */
    method ShowReviews(rt: Runtime, reviews: seq<Reviews.Review>) returns (crashed: bool)
      modifies this`allSlides
      ensures crashed <==> Reviews.Slides(rt, reviews).Threw?
      ensures allSlides == if crashed then old(allSlides) else Reviews.Slides(rt, reviews).value
    {
      var slides := Reviews.BuildSlides(rt, reviews);
      crashed := slides.Threw?;
      if !crashed {
        allSlides := slides.value;
      }
    }

    /** `openLightbox(review, index)`. */
    method OpenLightbox(rt: Runtime, review: Reviews.Review, index: nat)
      modifies this`selectedIndex
      ensures var k := Reviews.LightboxIndex(rt, allSlides, review, index);
        selectedIndex == if k.Returned? then Some(k.value) else old(selectedIndex)
    {
      var k := Reviews.LightboxIndex(rt, allSlides, review, index);
      if k.Returned? {
        selectedIndex := Some(k.value);
      }
    }
  }
}
