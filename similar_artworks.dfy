/** The preference-matching notification job (lib/jobs/check-similar-artworks.ts).

    For every art preference, in table order, the job lists the artworks of
    exactly that category created in the last 24 hours; for every such artwork
    it looks up the notification ledger under (user, artwork,
    "NEW_SIMILAR_ARTWORK"), and when no row exists it first inserts the row and
    then sends the e-mail. A store error ends the whole run; it is logged and
    not passed on, and the rows already inserted stay.

    The tables are values; the clock (`now`, in milliseconds), the application
    URL and the point at which the store fails (`abortAt`) are parameters. What
    the job does to the outside world is returned as a trace of effects. */
module SimilarArtworks {
  import opened Common
  import opened Schema
  import Email

  /** The look-back window: 24 hours, in milliseconds. */
  const DayMs: int := 24 * 60 * 60 * 1000

  /** The notification kind this job writes. */
  const NewSimilarArtwork: string := "NEW_SIMILAR_ARTWORK"

  /** An art-preference row with its user included. */
  datatype Subscription = Subscription(preference: ArtPreference, user: User)

  /** An artwork row with its artist, its category and that category's parent included. */
  datatype RecentArtwork = RecentArtwork(
    id: Id,
    title: string,
    imageUrl: string,
    createdAt: int,
    categoryId: Id,
    category: Category,
    parent: Option<Category>,
    artist: User)

  /** A notification-ledger row; the job looks rows up by all three fields. */
  datatype Notification = Notification(userId: Id, artworkId: Id, kind: string)

  /** One (preference, artwork) pair visited by the inner loop. */
  datatype Match = Match(subscription: Subscription, artwork: RecentArtwork)

  /** What the job does to the outside world, in order: a ledger insert, or a
      call of `sendNewArtworkEmail` for a pair, with the arguments
      `EmailFor(pair, appUrl)` (the call never fails, see Email). */
  datatype Effect =
    | Recorded(record: Notification)
    | Emailed(record: Notification, pair: Match)

  /** The ledger after the run, and the effects of the run in order. */
  datatype Outcome = Outcome(ledger: seq<Notification>, effects: seq<Effect>)

  /** The only time condition of the query: created at or after now - 24h. */
  predicate InWindow(a: RecentArtwork, now: int) {
    a.createdAt >= now - DayMs
  }

  /** The artwork query of one outer iteration: exact category, inside the window, in table order. */
  function RecentInCategory(artworks: seq<RecentArtwork>, categoryId: Id, now: int): seq<RecentArtwork>
    decreases |artworks|
  {
    if artworks == [] then []
    else
      var a := artworks[|artworks| - 1];
      var rest := RecentInCategory(artworks[..|artworks| - 1], categoryId, now);
      if a.categoryId == categoryId && InWindow(a, now) then rest + [a] else rest
  }

  /** The query returns exactly the artworks of the category inside the window. */
  lemma {:induction false} RecentInCategorySpec(artworks: seq<RecentArtwork>, categoryId: Id, now: int, a: RecentArtwork)
    ensures a in RecentInCategory(artworks, categoryId, now)
      <==> a in artworks && a.categoryId == categoryId && InWindow(a, now)
    decreases |artworks|
  {
    if artworks != [] {
      var init := artworks[..|artworks| - 1];
      assert artworks == init + [artworks[|artworks| - 1]];
      RecentInCategorySpec(init, categoryId, now, a);
    }
  }

  /** The pairs one preference contributes, one per artwork, in the artworks' order. */
  function MatchesFor(s: Subscription, arts: seq<RecentArtwork>): (r: seq<Match>)
    ensures |r| == |arts|
    decreases |arts|
  {
    if arts == [] then [] else MatchesFor(s, arts[..|arts| - 1]) + [Match(s, arts[|arts| - 1])]
  }

  /** A preference's pairs are exactly that preference with each of the artworks. */
  lemma {:induction false} MatchesForSpec(s: Subscription, arts: seq<RecentArtwork>, m: Match)
    ensures m in MatchesFor(s, arts) <==> m.subscription == s && m.artwork in arts
    decreases |arts|
  {
    if arts != [] {
      var init := arts[..|arts| - 1];
      assert arts == init + [arts[|arts| - 1]];
      MatchesForSpec(s, init, m);
    }
  }

  /** Every pair the nested loops visit, in visiting order. */
  function Candidates(subs: seq<Subscription>, artworks: seq<RecentArtwork>, now: int): seq<Match>
    decreases |subs|
  {
    if subs == [] then []
    else
      var s := subs[|subs| - 1];
      Candidates(subs[..|subs| - 1], artworks, now)
        + MatchesFor(s, RecentInCategory(artworks, s.preference.categoryId, now))
  }

  /** The ledger key the job looks up and inserts for a pair. */
  function Key(m: Match): Notification {
    Notification(m.subscription.preference.userId, m.artwork.id, NewSimilarArtwork)
  }

  /** The category shown in the e-mail: "Parent - Child" for a subcategory, else the category's name. */
  function CategoryLabel(a: RecentArtwork): string {
    match a.parent
    case Some(p) => p.name + " - " + a.category.name
    case None => a.category.name
  }

  function ArtworkUrl(appUrl: string, a: RecentArtwork): string {
    appUrl + "/artwork/" + NatToString(a.id)
  }

  /** The arguments the job passes to `sendNewArtworkEmail` for a pair. */
  function EmailFor(m: Match, appUrl: string): Email.ArtworkEmailProps {
    Email.ArtworkEmailProps(
      OrElse(m.subscription.user.email, ""),
      m.subscription.user.name,
      m.artwork.title,
      m.artwork.imageUrl,
      ArtworkUrl(appUrl, m.artwork),
      m.artwork.artist.name,
      CategoryLabel(m.artwork))
  }

  /** One inner iteration: skip a pair whose key is in the ledger; otherwise
      insert the key, then send the e-mail. */
  function Step(o: Outcome, m: Match, appUrl: string): Outcome {
    var k := Key(m);
    if k in o.ledger then o
    else Outcome(o.ledger + [k], o.effects + [Recorded(k), Emailed(k, m)])
  }

  /** The pairs in `ms` visited one after another, starting from `ledger`. */
  function Process(ledger: seq<Notification>, ms: seq<Match>, appUrl: string): Outcome
    decreases |ms|
  {
    if ms == [] then Outcome(ledger, [])
    else Step(Process(ledger, ms[..|ms| - 1], appUrl), ms[|ms| - 1], appUrl)
  }

  /** The pairs visited before the store fails: `abortAt` is the number of
      pairs visited before the first store error (None: no error). */
  function Attempted(c: seq<Match>, abortAt: Option<nat>): (r: seq<Match>)
    ensures |r| <= |c| && r == c[..|r|]
    ensures abortAt.None? ==> r == c
  {
    if abortAt.Some? && abortAt.value < |c| then c[..abortAt.value] else c
  }

  /** The whole run. */
  function Run(subs: seq<Subscription>, artworks: seq<RecentArtwork>, ledger: seq<Notification>,
               now: int, appUrl: string, abortAt: Option<nat>): Outcome
  {
    Process(ledger, Attempted(Candidates(subs, artworks, now), abortAt), appUrl)
  }

  lemma CandidatesExtend(subs: seq<Subscription>, artworks: seq<RecentArtwork>, now: int, i: nat)
    requires i < |subs|
    ensures Candidates(subs[..i + 1], artworks, now)
      == Candidates(subs[..i], artworks, now)
         + MatchesFor(subs[i], RecentInCategory(artworks, subs[i].preference.categoryId, now))
  {
    assert subs[..i + 1][..i] == subs[..i];
  }

  lemma {:induction false} CandidatesPrefix(subs: seq<Subscription>, artworks: seq<RecentArtwork>, now: int, i: nat, j: nat)
    requires i <= j <= |subs|
    ensures var a, b := Candidates(subs[..i], artworks, now), Candidates(subs[..j], artworks, now);
      |a| <= |b| && b[..|a|] == a
    decreases j
  {
    if i < j {
      CandidatesPrefix(subs, artworks, now, i, j - 1);
      CandidatesExtend(subs, artworks, now, j - 1);
    }
  }

  lemma ProcessSnoc(ledger: seq<Notification>, done: seq<Match>, m: Match, appUrl: string)
    ensures Process(ledger, done + [m], appUrl) == Step(Process(ledger, done, appUrl), m, appUrl)
  {
    assert (done + [m])[..|done|] == done;
  }

  lemma MatchesForSnoc(s: Subscription, arts: seq<RecentArtwork>, j: nat)
    requires j < |arts|
    ensures MatchesFor(s, arts[..j + 1]) == MatchesFor(s, arts[..j]) + [Match(s, arts[j])]
  {
    assert arts[..j + 1][..j] == arts[..j];
  }

  lemma CandidatesPrefixOfAll(subs: seq<Subscription>, artworks: seq<RecentArtwork>, now: int, i: nat)
    requires i <= |subs|
    ensures var a, c := Candidates(subs[..i], artworks, now), Candidates(subs, artworks, now);
      |a| <= |c| && c[..|a|] == a
  {
    CandidatesPrefix(subs, artworks, now, i, |subs|);
    assert subs[..|subs|] == subs;
  }

  lemma {:induction false} MatchesForTake(s: Subscription, news: seq<RecentArtwork>, j: nat)
    requires j <= |news|
    ensures MatchesFor(s, news)[..j] == MatchesFor(s, news[..j])
    decreases |news|
  {
    if j < |news| {
      var init := news[..|news| - 1];
      MatchesForTake(s, init, j);
      assert init[..j] == news[..j];
    } else {
      assert news[..j] == news;
    }
  }

  lemma MatchesForPrefix(before: seq<Match>, s: Subscription, news: seq<RecentArtwork>, j: nat)
    requires j <= |news|
    ensures (before + MatchesFor(s, news))[..|before| + j] == before + MatchesFor(s, news[..j])
  {
    MatchesForTake(s, news, j);
  }

  lemma PrefixOfPrefix(full: seq<Match>, upto: seq<Match>, done: seq<Match>)
    requires |upto| <= |full| && full[..|upto|] == upto
    requires |done| <= |upto| && upto[..|done|] == done
    ensures Attempted(full, Some(|done|)) == done
  {
    assert full[..|done|] == upto[..|done|];
  }

  /** Stopping before the `j`-th artwork of the `i`-th preference leaves exactly
      the pairs visited so far as the attempted prefix. */
  lemma StopPoint(subs: seq<Subscription>, artworks: seq<RecentArtwork>, now: int, i: nat, j: nat)
    requires i < |subs|
    requires j < |RecentInCategory(artworks, subs[i].preference.categoryId, now)|
    ensures var news := RecentInCategory(artworks, subs[i].preference.categoryId, now);
      var done := Candidates(subs[..i], artworks, now) + MatchesFor(subs[i], news[..j]);
      Attempted(Candidates(subs, artworks, now), Some(|done|)) == done
  {
    var news := RecentInCategory(artworks, subs[i].preference.categoryId, now);
    var before := Candidates(subs[..i], artworks, now);
    var upto := before + MatchesFor(subs[i], news);
    CandidatesExtend(subs, artworks, now, i);
    CandidatesPrefixOfAll(subs, artworks, now, i + 1);
    MatchesForPrefix(before, subs[i], news, j);
    PrefixOfPrefix(Candidates(subs, artworks, now), upto, before + MatchesFor(subs[i], news[..j]));
  }

  lemma StoppedRun(subs: seq<Subscription>, artworks: seq<RecentArtwork>, ledger0: seq<Notification>, now: int,
                   appUrl: string, abortAt: Option<nat>, i: nat, news: seq<RecentArtwork>, j: nat)
    requires i < |subs| && news == RecentInCategory(artworks, subs[i].preference.categoryId, now)
    requires j < |news| && abortAt == Some(|Candidates(subs[..i], artworks, now)| + j)
    ensures Run(subs, artworks, ledger0, now, appUrl, abortAt)
      == Process(ledger0, Candidates(subs[..i], artworks, now) + MatchesFor(subs[i], news[..j]), appUrl)
  {
    StopPoint(subs, artworks, now, i, j);
  }

  lemma FinishedSubscription(subs: seq<Subscription>, artworks: seq<RecentArtwork>, now: int,
                             i: nat, news: seq<RecentArtwork>, j: nat)
    requires i < |subs| && news == RecentInCategory(artworks, subs[i].preference.categoryId, now)
    requires j == |news|
    ensures Candidates(subs[..i + 1], artworks, now) == Candidates(subs[..i], artworks, now) + MatchesFor(subs[i], news[..j])
  {
    assert news[..j] == news;
    CandidatesExtend(subs, artworks, now, i);
  }

  lemma CompletedRun(subs: seq<Subscription>, artworks: seq<RecentArtwork>, now: int, abortAt: Option<nat>,
                     done: seq<Match>)
    requires done == Candidates(subs[..|subs|], artworks, now)
    requires abortAt.None? || |done| <= abortAt.value
    ensures Attempted(Candidates(subs, artworks, now), abortAt) == done
  {
    assert subs[..|subs|] == subs;
  }

  /** The body of the inner loop for one pair: look the key up in the ledger;
      when it is missing, insert it and then send the e-mail. */
  method NotifyOnce(ledger: seq<Notification>, effects: seq<Effect>, m: Match, appUrl: string)
    returns (ledger': seq<Notification>, effects': seq<Effect>)
    ensures Outcome(ledger', effects') == Step(Outcome(ledger, effects), m, appUrl)
  {
    var key := Notification(m.subscription.preference.userId, m.artwork.id, NewSimilarArtwork);
    ledger', effects' := ledger, effects;
    if key !in ledger {
      ledger' := ledger' + [key];
      effects' := effects' + [Recorded(key)];
      effects' := effects' + [Emailed(key, m)];
    }
  }

  /** The inner loop for one preference: its recent artworks in order, each
      through `NotifyOnce`, until the store fails. `visited` counts the pairs
      visited so far in the whole run; `before` are those pairs. */
  method NotifySubscriber(sub: Subscription, news: seq<RecentArtwork>, appUrl: string, abortAt: Option<nat>,
                          ghost ledger0: seq<Notification>, ghost before: seq<Match>,
                          ledger: seq<Notification>, effects: seq<Effect>, visited: nat)
    returns (ledger': seq<Notification>, effects': seq<Effect>, visited': nat, stopped: bool)
    requires visited == |before| && (abortAt.None? || visited <= abortAt.value)
    requires Outcome(ledger, effects) == Process(ledger0, before, appUrl)
    ensures visited <= visited' <= visited + |news|
    ensures Outcome(ledger', effects') == Process(ledger0, before + MatchesFor(sub, news[..visited' - visited]), appUrl)
    ensures stopped ==> visited' < visited + |news| && abortAt == Some(visited')
    ensures !stopped ==> visited' == visited + |news| && (abortAt.None? || visited' <= abortAt.value)
  {
    ledger', effects', visited', stopped := ledger, effects, visited, false;
    ghost var done := before;
    var j := 0;
    while j < |news|
      invariant 0 <= j <= |news| && visited' == visited + j && visited' == |done|
      invariant done == before + MatchesFor(sub, news[..j])
      invariant abortAt.None? || visited' <= abortAt.value
      invariant Outcome(ledger', effects') == Process(ledger0, done, appUrl)
    {
      if abortAt.Some? && abortAt.value == visited' {
        // the store throws while handling this pair: the rest of the run is skipped
        stopped := true;
        return;
      }
      var m := Match(sub, news[j]);
      ProcessSnoc(ledger0, done, m, appUrl);
      ledger', effects' := NotifyOnce(ledger', effects', m, appUrl);
      done := done + [m];
      MatchesForSnoc(sub, news, j);
      visited' := visited' + 1;
      j := j + 1;
    }
  }

  /** What the outer loop knows after one preference: the run's outcome when
      the store failed inside it, else every pair of the preference visited. */
  lemma VisitOutcome(subs: seq<Subscription>, artworks: seq<RecentArtwork>, ledger0: seq<Notification>,
                     now: int, appUrl: string, abortAt: Option<nat>, i: nat, news: seq<RecentArtwork>,
                     visited: nat, visited': nat, stopped: bool, o: Outcome)
    requires i < |subs| && news == RecentInCategory(artworks, subs[i].preference.categoryId, now)
    requires visited == |Candidates(subs[..i], artworks, now)| && visited <= visited' <= visited + |news|
    requires o == Process(ledger0, Candidates(subs[..i], artworks, now) + MatchesFor(subs[i], news[..visited' - visited]), appUrl)
    requires stopped ==> visited' < visited + |news| && abortAt == Some(visited')
    requires !stopped ==> visited' == visited + |news| && (abortAt.None? || visited' <= abortAt.value)
    ensures stopped ==> o == Run(subs, artworks, ledger0, now, appUrl, abortAt)
    ensures !stopped ==>
      && visited' == |Candidates(subs[..i + 1], artworks, now)|
      && (abortAt.None? || visited' <= abortAt.value)
      && o == Process(ledger0, Candidates(subs[..i + 1], artworks, now), appUrl)
  {
    if stopped {
      StoppedRun(subs, artworks, ledger0, now, appUrl, abortAt, i, news, visited' - visited);
    } else {
      FinishedSubscription(subs, artworks, now, i, news, visited' - visited);
    }
  }

  /** One iteration of the outer loop: the preference's recent artworks in
      its category, each pair through `NotifyOnce`. Either the store fails
      inside it, and the run's outcome is reached, or every pair of this
      preference has been visited. */
  method VisitSubscription(subs: seq<Subscription>, artworks: seq<RecentArtwork>, ghost ledger0: seq<Notification>,
                           now: int, appUrl: string, abortAt: Option<nat>, i: nat,
                           ledger: seq<Notification>, effects: seq<Effect>, visited: nat)
    returns (ledger': seq<Notification>, effects': seq<Effect>, visited': nat, stopped: bool)
    requires i < |subs|
    requires visited == |Candidates(subs[..i], artworks, now)|
    requires abortAt.None? || visited <= abortAt.value
    requires Outcome(ledger, effects) == Process(ledger0, Candidates(subs[..i], artworks, now), appUrl)
    ensures stopped ==> Outcome(ledger', effects') == Run(subs, artworks, ledger0, now, appUrl, abortAt)
    ensures !stopped ==>
      && visited' == |Candidates(subs[..i + 1], artworks, now)|
      && (abortAt.None? || visited' <= abortAt.value)
      && Outcome(ledger', effects') == Process(ledger0, Candidates(subs[..i + 1], artworks, now), appUrl)
  {
    ghost var before := Candidates(subs[..i], artworks, now);
    var news := RecentInCategory(artworks, subs[i].preference.categoryId, now);
    ledger', effects', visited', stopped :=
      NotifySubscriber(subs[i], news, appUrl, abortAt, ledger0, before, ledger, effects, visited);
    VisitOutcome(subs, artworks, ledger0, now, appUrl, abortAt, i, news, visited, visited', stopped,
                 Outcome(ledger', effects'));
  }

  /** `checkSimilarArtworks`: the nested loops, the ledger lookup and the
      insert-then-send, ending early at the first store error, which is logged
      and not passed on; the rows inserted before it stay. */
  method CheckSimilarArtworks(subs: seq<Subscription>, artworks: seq<RecentArtwork>, ledger0: seq<Notification>,
                              now: int, appUrl: string, abortAt: Option<nat>)
    returns (ledger: seq<Notification>, effects: seq<Effect>)
    ensures Outcome(ledger, effects) == Run(subs, artworks, ledger0, now, appUrl, abortAt)
  {
    ledger, effects := ledger0, [];
    var visited: nat := 0;
    var i := 0;
    assert subs[..0] == [];
    while i < |subs|
      invariant 0 <= i <= |subs|
      invariant visited == |Candidates(subs[..i], artworks, now)|
      invariant abortAt.None? || visited <= abortAt.value
      invariant Outcome(ledger, effects) == Process(ledger0, Candidates(subs[..i], artworks, now), appUrl)
    {
      var stopped;
      ledger, effects, visited, stopped :=
        VisitSubscription(subs, artworks, ledger0, now, appUrl, abortAt, i, ledger, effects, visited);
      if stopped {
        return;
      }
      i := i + 1;
    }
    CompletedRun(subs, artworks, now, abortAt, Candidates(subs[..i], artworks, now));
  }

  // ---------------------------------------------------------------------
  // Which pairs are visited

  /** A pair is visited exactly when its preference and artwork are in the
      tables, the artwork's category equals the preference's category, and the
      artwork is inside the window. */
  lemma {:induction false} CandidatesSpec(subs: seq<Subscription>, artworks: seq<RecentArtwork>, now: int, m: Match)
    ensures m in Candidates(subs, artworks, now)
      <==> m.subscription in subs && m.artwork in artworks
           && m.artwork.categoryId == m.subscription.preference.categoryId
           && InWindow(m.artwork, now)
    decreases |subs|
  {
    if subs != [] {
      var init, s := subs[..|subs| - 1], subs[|subs| - 1];
      assert subs == init + [s];
      CandidatesSpec(init, artworks, now, m);
      var recent := RecentInCategory(artworks, s.preference.categoryId, now);
      RecentInCategorySpec(artworks, s.preference.categoryId, now, m.artwork);
      MatchesForSpec(s, recent, m);
    }
  }

  /** Matching is by category id only: a preference for a parent category never
      reaches an artwork filed under one of its subcategories. */
  lemma ParentPreferenceSkipsChild(subs: seq<Subscription>, artworks: seq<RecentArtwork>, now: int,
                                   s: Subscription, a: RecentArtwork)
    requires a.category.parentId == Some(s.preference.categoryId)
    requires a.categoryId == a.category.id && a.category.id != s.preference.categoryId
    ensures Match(s, a) !in Candidates(subs, artworks, now)
  {
    CandidatesSpec(subs, artworks, now, Match(s, a));
  }

  /** The window has no upper bound: an artwork stamped later than `now` still matches. */
  lemma FutureArtworkMatches(subs: seq<Subscription>, artworks: seq<RecentArtwork>, now: int,
                             s: Subscription, a: RecentArtwork)
    requires s in subs && a in artworks && a.categoryId == s.preference.categoryId
    requires a.createdAt > now
    ensures Match(s, a) in Candidates(subs, artworks, now)
  {
    CandidatesSpec(subs, artworks, now, Match(s, a));
  }

  // ---------------------------------------------------------------------
  // What a run does to the ledger

  ghost predicate Requested(ms: seq<Match>, k: Notification) {
    exists m :: m in ms && Key(m) == k
  }

  /** The ledger only grows: every earlier row stays, in place. */
  lemma {:induction false} ProcessKeepsLedger(ledger: seq<Notification>, ms: seq<Match>, appUrl: string)
    ensures var r := Process(ledger, ms, appUrl).ledger;
      |ledger| <= |r| && r[..|ledger|] == ledger
    decreases |ms|
  {
    if ms != [] {
      ProcessKeepsLedger(ledger, ms[..|ms| - 1], appUrl);
    }
  }

  /** The rows a run adds are exactly the keys of the visited pairs that had no row before. */
  lemma {:induction false} ProcessNewRows(ledger: seq<Notification>, ms: seq<Match>, appUrl: string, k: Notification)
    ensures var r := Process(ledger, ms, appUrl).ledger;
      |ledger| <= |r| && (k in r[|ledger|..] <==> k !in ledger && Requested(ms, k))
    decreases |ms|
  {
    ProcessKeepsLedger(ledger, ms, appUrl);
    if ms != [] {
      var init, m := ms[..|ms| - 1], ms[|ms| - 1];
      assert ms == init + [m];
      ProcessNewRows(ledger, init, appUrl, k);
      ProcessKeepsLedger(ledger, init, appUrl);
      var prev := Process(ledger, init, appUrl).ledger;
      var r := Process(ledger, ms, appUrl).ledger;
      assert prev == prev[..|ledger|] + prev[|ledger|..];
      if Requested(ms, k) && !Requested(init, k) {
        var w :| w in ms && Key(w) == k;
        assert w == m;
      }
      if Key(m) !in prev {
        assert r[|ledger|..] == prev[|ledger|..] + [Key(m)];
      }
    }
  }

  /** A run never adds the same key twice. */
  /** No row of `s` from position `lo` on occurs twice. */
  ghost predicate DistinctFrom(s: seq<Notification>, lo: nat) {
    forall i, j :: lo <= i < j < |s| ==> s[i] != s[j]
  }

  lemma {:induction false} ProcessNewRowsDistinct(ledger: seq<Notification>, ms: seq<Match>, appUrl: string)
    ensures DistinctFrom(Process(ledger, ms, appUrl).ledger, |ledger|)
    decreases |ms|
  {
    if ms != [] {
      var init, m := ms[..|ms| - 1], ms[|ms| - 1];
      ProcessNewRowsDistinct(ledger, init, appUrl);
      var prev := Process(ledger, init, appUrl).ledger;
      var r := Process(ledger, ms, appUrl).ledger;
      assert DistinctFrom(prev, |ledger|);
      if Key(m) !in prev {
        assert r == prev + [Key(m)];
        forall i, j | |ledger| <= i < j < |r| ensures r[i] != r[j] {
          assert r[i] == prev[i];
          if j == |prev| {
            assert r[j] == Key(m);
            assert prev[i] in prev;
          } else {
            assert r[j] == prev[j];
          }
        }
      }
    }
  }

  /** After a run every visited pair has its key in the ledger. */
  lemma {:induction false} ProcessCovers(ledger: seq<Notification>, ms: seq<Match>, appUrl: string)
    ensures forall m :: m in ms ==> Key(m) in Process(ledger, ms, appUrl).ledger
    decreases |ms|
  {
    if ms != [] {
      var init := ms[..|ms| - 1];
      ProcessCovers(ledger, init, appUrl);
      assert ms == init + [ms[|ms| - 1]];
      forall m | m in ms ensures Key(m) in Process(ledger, ms, appUrl).ledger {
        if m in init {
          ProcessKeepsLedgerTail(ledger, init, ms[|ms| - 1], appUrl);
        }
      }
    }
  }

  lemma ProcessKeepsLedgerTail(ledger: seq<Notification>, init: seq<Match>, m: Match, appUrl: string)
    ensures var prev := Process(ledger, init, appUrl).ledger;
      prev <= Process(ledger, init + [m], appUrl).ledger
  {
    assert (init + [m])[..|init|] == init;
  }

  /** When every visited pair already has a row, a run changes nothing and sends nothing. */
  lemma {:induction false} ProcessAllRecorded(ledger: seq<Notification>, ms: seq<Match>, appUrl: string)
    requires forall m :: m in ms ==> Key(m) in ledger
    ensures Process(ledger, ms, appUrl) == Outcome(ledger, [])
    decreases |ms|
  {
    if ms != [] {
      ProcessAllRecorded(ledger, ms[..|ms| - 1], appUrl);
    }
  }

  /** If the ledger had no duplicate rows before a run, it has none after,
      even when a user holds several identical preferences. */
  lemma NoDuplicateRows(ledger: seq<Notification>, ms: seq<Match>, appUrl: string)
    requires forall i, j :: 0 <= i < j < |ledger| ==> ledger[i] != ledger[j]
    ensures var r := Process(ledger, ms, appUrl).ledger;
      forall i, j :: 0 <= i < j < |r| ==> r[i] != r[j]
  {
    var r := Process(ledger, ms, appUrl).ledger;
    ProcessKeepsLedger(ledger, ms, appUrl);
    ProcessNewRowsDistinct(ledger, ms, appUrl);
    assert DistinctFrom(r, |ledger|);
    forall i, j | 0 <= i < j < |r| ensures r[i] != r[j] {
      if i < |ledger| <= j {
        ProcessNewRows(ledger, ms, appUrl, r[j]);
        assert r[j] in r[|ledger|..];
        assert r[i] == ledger[i];
      }
    }
  }

  // ---------------------------------------------------------------------
  // Effects: insert before send, one send per new row, nothing for old keys

  ghost predicate SentFor(ms: seq<Match>, e: Effect, appUrl: string) {
    exists m :: m in ms && e == Emailed(Key(m), m)
  }

  /** The effects of `o` beyond the first `base` ledger rows come in pairs,
      one pair per new row and in the same order: the insert of the row,
      immediately followed by the e-mail for a pair of `ms` with that key. */
  ghost predicate PairedEffects(base: nat, o: Outcome, ms: seq<Match>, appUrl: string) {
    && base <= |o.ledger|
    && |o.effects| == 2 * (|o.ledger| - base)
    && forall i :: 0 <= i < |o.ledger| - base ==>
         && o.effects[2 * i] == Recorded(o.ledger[base + i])
         && o.effects[2 * i + 1].Emailed?
         && o.effects[2 * i + 1].record == o.ledger[base + i]
         && SentFor(ms, o.effects[2 * i + 1], appUrl)
  }

  lemma StepPairedEffects(base: nat, o: Outcome, ms: seq<Match>, m: Match, appUrl: string)
    requires PairedEffects(base, o, ms, appUrl)
    ensures PairedEffects(base, Step(o, m, appUrl), ms + [m], appUrl)
  {
    var o' := Step(o, m, appUrl);
    forall i | 0 <= i < |o'.ledger| - base
      ensures o'.effects[2 * i + 1].Emailed? && SentFor(ms + [m], o'.effects[2 * i + 1], appUrl)
    {
      if i < |o.ledger| - base {
        assert o'.effects[2 * i + 1] == o.effects[2 * i + 1];
        var w :| w in ms && o.effects[2 * i + 1] == Emailed(Key(w), w);
        assert w in ms + [m];
      } else {
        assert o'.effects[2 * i + 1] == Emailed(Key(m), m);
        assert m in ms + [m];
      }
    }
  }

  /** The effects come in pairs, one pair per new ledger row and in the same
      order: the insert of the row, immediately followed by the e-mail for the
      pair that produced it. */
  lemma {:induction false} ProcessEffects(ledger: seq<Notification>, ms: seq<Match>, appUrl: string)
    ensures var o := Process(ledger, ms, appUrl);
      && |ledger| <= |o.ledger|
      && |o.effects| == 2 * (|o.ledger| - |ledger|)
      && forall i :: 0 <= i < |o.ledger| - |ledger| ==>
           && o.effects[2 * i] == Recorded(o.ledger[|ledger| + i])
           && o.effects[2 * i + 1].Emailed?
           && o.effects[2 * i + 1].record == o.ledger[|ledger| + i]
           && SentFor(ms, o.effects[2 * i + 1], appUrl)
    decreases |ms|
  {
    if ms != [] {
      var init, m := ms[..|ms| - 1], ms[|ms| - 1];
      assert ms == init + [m];
      ProcessEffects(ledger, init, appUrl);
      StepPairedEffects(|ledger|, Process(ledger, init, appUrl), init, m, appUrl);
    }
  }

  /** A pair whose key was already in the ledger gets no insert and no e-mail:
      every effect of a run concerns a key that had no row before. */
  lemma ExistingRowSuppresses(ledger: seq<Notification>, ms: seq<Match>, appUrl: string, n: nat)
    requires n < |Process(ledger, ms, appUrl).effects|
    ensures Process(ledger, ms, appUrl).effects[n].record !in ledger
  {
    var o := Process(ledger, ms, appUrl);
    ProcessEffects(ledger, ms, appUrl);
    var i := n / 2;
    assert n == 2 * i || n == 2 * i + 1;
    var k := o.ledger[|ledger| + i];
    assert k in o.ledger[|ledger|..];
    ProcessNewRows(ledger, ms, appUrl, k);
  }

  // ---------------------------------------------------------------------
  // Runs: idempotence and failure

  /** A second run over the same preferences, artworks and clock, started from
      the ledger the first run left, inserts nothing and sends nothing. */
  lemma RerunIsQuiet(subs: seq<Subscription>, artworks: seq<RecentArtwork>, ledger: seq<Notification>,
                     now: int, appUrl: string)
    ensures var first := Run(subs, artworks, ledger, now, appUrl, None);
      Run(subs, artworks, first.ledger, now, appUrl, None) == Outcome(first.ledger, [])
  {
    var c := Candidates(subs, artworks, now);
    ProcessCovers(ledger, c, appUrl);
    ProcessAllRecorded(Process(ledger, c, appUrl).ledger, c, appUrl);
  }

  /** Visiting `a + b` is visiting `a`, then visiting `b` from the ledger
      that leaves, with the effects of the two visits one after the other. */
  lemma {:induction false} ProcessAppend(ledger: seq<Notification>, a: seq<Match>, b: seq<Match>, appUrl: string)
    ensures var x := Process(ledger, a, appUrl);
      var y := Process(x.ledger, b, appUrl);
      Process(ledger, a + b, appUrl) == Outcome(y.ledger, x.effects + y.effects)
    ensures var x, z := Process(ledger, a, appUrl), Process(ledger, a + b, appUrl);
      x.ledger <= z.ledger && x.effects <= z.effects
    decreases |b|
  {
    var x := Process(ledger, a, appUrl);
    if b == [] {
      assert a + b == a;
      assert x.effects + [] == x.effects;
    } else {
      var b' := b[..|b| - 1];
      assert (a + b)[..|a + b| - 1] == a + b';
      assert (a + b)[|a + b| - 1] == b[|b| - 1];
      ProcessAppend(ledger, a, b', appUrl);
      ProcessKeepsLedger(x.ledger, b, appUrl);
    }
  }

  /** A run stopped by a store error did a prefix of the work of an
      undisturbed run: the rows it inserted stay, nothing is undone, and it
      sent only e-mails the undisturbed run would have sent first. */
  lemma FailedRunIsPrefix(subs: seq<Subscription>, artworks: seq<RecentArtwork>, ledger: seq<Notification>,
                          now: int, appUrl: string, k: nat)
    ensures var stopped := Run(subs, artworks, ledger, now, appUrl, Some(k));
      var whole := Run(subs, artworks, ledger, now, appUrl, None);
      && ledger <= stopped.ledger
      && stopped.ledger <= whole.ledger
      && stopped.effects <= whole.effects
  {
    var c := Candidates(subs, artworks, now);
    var a := Attempted(c, Some(k));
    assert c == a + c[|a|..];
    ProcessAppend(ledger, a, c[|a|..], appUrl);
    ProcessKeepsLedger(ledger, a, appUrl);
  }

  /** The category label: "Parent - Child" when the category has a parent,
      otherwise the category's own name. */
  lemma CategoryLabelShape(a: RecentArtwork)
    ensures a.parent.None? ==> CategoryLabel(a) == a.category.name
    ensures a.parent.Some? ==>
      var r, p, c := CategoryLabel(a), a.parent.value.name, a.category.name;
      && |r| == |p| + 3 + |c|
      && StartsWith(r, p + " - ")
      && r[|p| + 3..] == c
  {
    if a.parent.Some? {
      var r, p, c := CategoryLabel(a), a.parent.value.name, a.category.name;
      assert r == (p + " - ") + c;
    }
  }

  /** The e-mail sent for a pair goes to the subscriber's address (or the
      empty string), is titled with the artwork's category label and title,
      shows the title and links to the artwork's page under `appUrl`. */
  lemma EmailForPair(m: Match, appUrl: string)
    ensures var msg := Email.Compose(EmailFor(m, appUrl));
      && msg.to == OrElse(m.subscription.user.email, "")
      && StartsWith(msg.subject, "New " + CategoryLabel(m.artwork) + " Artwork: ")
      && Contains(msg.html, m.artwork.title)
      && Contains(msg.html, "href=\"" + ArtworkUrl(appUrl, m.artwork) + "\"")
  {
    var p := EmailFor(m, appUrl);
    Email.SubjectShape(p);
    Email.BodyMentionsArtwork(p);
  }
}
