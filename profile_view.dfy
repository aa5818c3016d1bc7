/**
 * `ProfileView`: what the profile card shows for a profile row, and the
 * reputation badge it picks.
 */
module ProfileView {
  import opened Wrappers

  const NotFoundText: string := "Профиль не найден. Попробуйте войти снова."
  const NamelessText: string := "Без имени"
  const AvatarAlt: string := "Avatar"

  /** The reputation badge. */
  datatype Badge = Trusted | Active | LowReputation | Neutral

  /** `ReputationBadge`: the if-chain on the reputation, tested from the top. */
  function BadgeOf(reputation: real): (b: Badge)
  {
    if reputation >= 50.0 then Trusted
    else if reputation >= 20.0 then Active
    else if reputation < 5.0 then LowReputation
    else Neutral
  }

  /** The four badges cover the reputation scale in disjoint ranges. */
  lemma BadgeRanges(reputation: real)
    ensures BadgeOf(reputation) == Trusted <==> 50.0 <= reputation
    ensures BadgeOf(reputation) == Active <==> 20.0 <= reputation < 50.0
    ensures BadgeOf(reputation) == Neutral <==> 5.0 <= reputation < 20.0
    ensures BadgeOf(reputation) == LowReputation <==> reputation < 5.0
  {
  }

  /** A higher reputation never gets a lower badge (Low < Neutral < Active < Trusted). */
  function Rank(b: Badge): nat {
    match b
    case LowReputation => 0
    case Neutral => 1
    case Active => 2
    case Trusted => 3
  }

  lemma BadgeMonotone(r1: real, r2: real)
    requires r1 <= r2
    ensures Rank(BadgeOf(r1)) <= Rank(BadgeOf(r2))
  {
    BadgeRanges(r1);
    BadgeRanges(r2);
  }

  /** A `profiles` row as the card reads it (`null` columns are `None`). */
  datatype Profile = Profile(
    username: Option<string>,
    avatarUrl: Option<string>,
    reputation: real,
    bio: Option<string>,
    tags: Option<seq<string>>,
    isVerified: bool)

  /** An avatar image, or the placeholder icon. */
  datatype Avatar = Image(src: string, alt: string) | Placeholder

  /** What is rendered. */
  datatype View =
    | NotFound(message: string)
    | Card(avatar: Avatar, name: string, badge: Badge, reputation: real,
           bio: Option<string>, tags: Option<seq<string>>, verified: bool, idLine: string)

  /** `value || fallback` on a nullable string. */
  function OrElse(value: Option<string>, fallback: string): (r: string)
    ensures value.Some? && value.value != "" ==> r == value.value
    ensures value.None? || value.value == "" ==> r == fallback
  {
    if value.Some? && value.value != "" then value.value else fallback
  }

  /** `ProfileView`. */
  function Render(profile: Option<Profile>, userId: string): (v: View)
    ensures profile.None? <==> v.NotFound?
    ensures v.NotFound? ==> v.message == NotFoundText
    ensures v.Card? ==>
      v.idLine == "id: " + userId && v.badge == BadgeOf(v.reputation) &&
      v.reputation == profile.value.reputation && v.verified == profile.value.isVerified
  {
    match profile
    case None => NotFound(NotFoundText)
    case Some(p) =>
      var avatar := if p.avatarUrl.Some? && p.avatarUrl.value != "" then Image(p.avatarUrl.value, OrElse(p.username, AvatarAlt))
                    else Placeholder;
      var bio := if p.bio.Some? && p.bio.value != "" then p.bio else None;
      var tags := if p.tags.Some? && |p.tags.value| > 0 then p.tags else None;
      Card(avatar, OrElse(p.username, NamelessText), BadgeOf(p.reputation), p.reputation, bio, tags, p.isVerified,
           "id: " + userId)
  }

  /**
   * The optional blocks: a bio only when it is non-empty, the interests only when there
   * is at least one tag, in their stored order; the name falls back to "Без имени".
   */
  lemma RenderBlocks(p: Profile, userId: string)
    ensures var v := Render(Some(p), userId);
      (v.tags.Some? <==> p.tags.Some? && |p.tags.value| > 0) &&
      (v.tags.Some? ==> v.tags.value == p.tags.value) &&
      (v.bio.Some? <==> p.bio.Some? && p.bio.value != "") &&
      (v.bio.Some? ==> v.bio == p.bio) &&
      (v.avatar.Image? <==> p.avatarUrl.Some? && p.avatarUrl.value != "") &&
      v.name == (if p.username.Some? && p.username.value != "" then p.username.value else NamelessText)
  {
  }
}
