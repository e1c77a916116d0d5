/** The post card: the relative-time label (`timeAgo`) and the guard that
    renders nothing for a post whose author is not loaded. */
module PostCard {
  import opened Base
  import opened Decimal
  import Types

  datatype Unit = Year | Month | Day | Hour | Minute | Second

  /** The unit's length in seconds (a year is 365 days, a month 30). */
  function Span(u: Unit): (secs: nat) {
    match u
    case Year => 31536000
    case Month => 2592000
    case Day => 86400
    case Hour => 3600
    case Minute => 60
    case Second => 1
  }

  /** Units ordered from the smallest (0) to the largest. */
  function Rank(u: Unit): (r: nat) {
    match u
    case Year => 5
    case Month => 4
    case Day => 3
    case Hour => 2
    case Minute => 1
    case Second => 0
  }

  function Suffix(u: Unit): (t: string) {
    match u
    case Year => "y"
    case Month => "mo"
    case Day => "d"
    case Hour => "h"
    case Minute => "m"
    case Second => "s"
  }

  /** A label "<count><unit> ago" before it is written out. */
  datatype Ago = Ago(count: int, unit: Unit)

  /** `Math.floor((now - past) / 1000)` for instants in milliseconds. */
  function ElapsedSeconds(now: int, past: int): (s: int)
    ensures s * 1000 <= now - past < s * 1000 + 1000
  {
    (now - past) / 1000
  }

  /** The chain of comparisons `seconds / span > 1`, largest unit first.
      Dafny's `/` by a positive divisor is the floor, as `Math.floor` is. */
  function Bucket(seconds: int): (a: Ago)
    ensures a.unit == Second <==> seconds <= 60
    ensures a.unit == Second ==> a.count == seconds
    ensures a.unit != Second ==>
      seconds > Span(a.unit) && a.count == seconds / Span(a.unit) && a.count >= 1
    ensures forall u :: Rank(u) > Rank(a.unit) ==> seconds <= Span(u)
  {
    if seconds > 31536000 then Ago(seconds / 31536000, Year)
    else if seconds > 2592000 then Ago(seconds / 2592000, Month)
    else if seconds > 86400 then Ago(seconds / 86400, Day)
    else if seconds > 3600 then Ago(seconds / 3600, Hour)
    else if seconds > 60 then Ago(seconds / 60, Minute)
    else Ago(seconds, Second)
  }

  /** The template literal `${count}<unit> ago`. The label gives back its
      count and unit, so distinct labels are written differently. */
  function Format(a: Ago): (s: string)
    ensures ParseAgo(s) == Some(a)
    ensures |s| >= 4 && s[|s| - 4..] == " ago"
  {
    var rest := Suffix(a.unit) + " ago";
    SuffixRoundTrip(a.unit);
    IntRoundTrip(a.count, rest);
    IntToString(a.count) + rest
  }

  /** `timeAgo(post.timestamp)` evaluated at the instant `now`. */
  function TimeAgo(now: int, stamp: Types.Stamp): (s: string)
    ensures s == "" <==> stamp.Empty?
    ensures stamp.Millis? ==> s == Format(Bucket(ElapsedSeconds(now, stamp.ms)))
    ensures stamp.Millis? ==> ParseAgo(s) == Some(Bucket(ElapsedSeconds(now, stamp.ms)))
    ensures stamp.Unparseable? ==> s == "NaNs ago" && ParseAgo(s) == None
  {
    match stamp
    case Empty => ""
    case Unparseable => "NaNs ago"
    case Millis(past) => Format(Bucket(ElapsedSeconds(now, past)))
  }

  function UnitOfSuffix(t: string): (u: Option<Unit>) {
    if t == "y ago" then Some(Year)
    else if t == "mo ago" then Some(Month)
    else if t == "d ago" then Some(Day)
    else if t == "h ago" then Some(Hour)
    else if t == "m ago" then Some(Minute)
    else if t == "s ago" then Some(Second)
    else None
  }

  /** Reads a label back into its count and unit. */
  function ParseAgo(s: string): (r: Option<Ago>) {
    var (n, rest) := ParseIntPrefix(s);
    match UnitOfSuffix(rest)
    case None => None
    case Some(u) => Some(Ago(n, u))
  }

  lemma SuffixRoundTrip(u: Unit)
    ensures |Suffix(u) + " ago"| > 0 && !IsDigit((Suffix(u) + " ago")[0])
    ensures UnitOfSuffix(Suffix(u) + " ago") == Some(u)
  {
  }

  lemma FormatInjective(a: Ago, b: Ago)
    requires Format(a) == Format(b)
    ensures a == b
  {
  }

  /** Exactly one hour is still counted in minutes, because the thresholds are
      strict; exactly one minute is counted in seconds. */
  lemma StrictThresholds()
    ensures Bucket(3600) == Ago(60, Minute)
    ensures Bucket(60) == Ago(60, Second)
    ensures Bucket(86400) == Ago(24, Hour)
    ensures Bucket(2592000) == Ago(30, Day)
    ensures Bucket(31536000) == Ago(12, Month)
  {
  }

  /** Posted exactly one hour before `now`. */
  lemma OneHourAgoReadsSixtyMinutes(now: int)
    ensures TimeAgo(now, Types.Millis(now - 3600000)) == "60m ago"
  {
  }

  /** A date in the future gives a negative count of seconds. */
  lemma FutureIsNegativeSeconds(now: int, past: int)
    requires past > now
    ensures Bucket(ElapsedSeconds(now, past)) == Ago(ElapsedSeconds(now, past), Second)
    ensures ElapsedSeconds(now, past) < 0
  {
  }

  /** An older post never gets a smaller unit than a newer one. */
  lemma BucketMonotone(s1: int, s2: int)
    requires s1 <= s2
    ensures Rank(Bucket(s1).unit) <= Rank(Bucket(s2).unit)
  {
  }

  /** What the card shows. */
  datatype Card = Card(authorId: Option<string>, avatarUrl: string, authorName: string,
                       authorBio: string, ago: string, content: string)

  /** `PostCard`: nothing (None) while the post's author is absent. */
  function Render(post: Types.Post, now: int): (r: Option<Card>)
    ensures r.None? <==> post.author.None?
    ensures r.Some? ==>
      && r.value.authorId == post.author.value.id
      && r.value.authorName == post.author.value.name
      && r.value.authorBio == post.author.value.bio
      && r.value.avatarUrl == post.author.value.avatarUrl
      && r.value.ago == TimeAgo(now, post.timestamp)
      && r.value.content == post.content
  {
    match post.author
    case None => None
    case Some(u) => Some(Card(u.id, u.avatarUrl, u.name, u.bio, TimeAgo(now, post.timestamp), post.content))
  }
}
