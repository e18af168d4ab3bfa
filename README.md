# TeamPulse sentiment core in Dafny

TeamPulse is a small Next.js app. Teams of members each report a sentiment
(happy, neutral or sad), and the app turns those answers into scores,
labels, trends and dashboard figures. This project models the app's
decision logic in Dafny and proves properties of it:

- the weighted average (weights 3/2/1) over time-bucketed answer counts;
- the six-step classification ladder and the colour styles;
- the trend between the earlier and the later half of the date-sorted points;
- the combined statistics record;
- the three other score ladders used in components: the team card,
  the dashboard card and the dashboard totals;
- the team-stats health score;
- both route guards: the current middleware and the older one;
- the add-member dialog: its validators, form state and submit guard;
- the member table: search, edit, save and delete;
- the sidebar's active-link rule;
- the settings list-to-map fold.

One Dafny module per source file:

| module | file | source |
|---|---|---|
| `SentimentUtils` | `sentiment_utils.dfy` | `lib/sentiment-utils.ts` |
| `ChartUtils` | `chart_utils.dfy` | `lib/chart-utils.ts` |
| `Middleware` | `middleware.dfy` | `middleware.ts` |
| `LegacyMiddleware` | `legacy_middleware.dfy` | `middleware/middleware.ts` |
| `AddMemberModal` | `add_member_modal.dfy` | `components/teams/add-member-modal.tsx` |
| `MemberList` | `member_list.dfy` | `components/teams/member-list.tsx` |
| `TeamCard` | `team_card.dfy` | `components/teams/team-card.tsx` |
| `EnhancedTeamCard` | `enhanced_team_card.dfy` | `components/dashboard/EnhancedTeamCard.tsx` |
| `TeamStats` | `team_stats.dfy` | `components/teams/team-stats-section.tsx` |
| `Dashboard` | `dashboard.dfy` | `app/dashboard/page.tsx` |
| `Sidebar` | `sidebar.dfy` | `components/layout/sidebar.tsx` |
| `AdminSettings` | `admin_settings.dfy` | `app/admin-settings/page.tsx` |

Three shared modules support them:

- `Domain` (`domain.dfy`): members, sentiments, counting, the weighted mean and `Math.round`.
- `Text` (`text.dfy`): `trim`, `startsWith`, `includes`, `toLowerCase` and number-to-text.
- `Ladders` (`ladders.dfy`): compares the four score ladders with one another.

Modelling choices:

- Scores, averages and percentages are exact `real`s.
- `Math.round(x)` is `⌊x + ½⌋`.
- Dates are integer timestamps.
- The date sort on a copy is an insertion sort, stable by `SortIsStable`. It is a pure function, so the input is never reordered.
- The components whose handlers update state step by step are Dafny classes whose methods change those fields:
  - the add-member dialog;
  - the member table;
  - the team row's average.
- The two loops that update variables in place are methods proved against the fold functions that specify them:
  - the dashboard's nested counting loop;
  - the settings `reduce`, which assigns into its accumulator.
- Server calls appear as outcome parameters: `SubmitOutcome`, `SaveOutcome`, `DeleteOutcome` and `AverageSource`.
  A method receives the outcome and updates the state the way the handler does after the `await`.

## Model

| member | source | states |
|---|---|---|
| SentimentUtils.AverageSentiment | lib/sentiment-utils.ts:12-32 | average is 0 when there are no answers (so no division by zero); otherwise average × total answers = weighted sum, with missing counts as 0 |
| SentimentUtils.WeightedBetween | lib/sentiment-utils.ts:15-29 | with non-negative counts, total answers ≤ weighted sum ≤ 3 × total answers |
| SentimentUtils.AverageInRange | lib/sentiment-utils.ts:31 | with non-negative counts and at least one answer, the average lies in [1, 3] |
| SentimentUtils.TotalsConcat | lib/sentiment-utils.ts:15-29 | both reduce totals are additive over concatenation |
| SentimentUtils.TotalsPermutation | lib/sentiment-utils.ts:15-31 | the totals and the average do not depend on the order of the points |
| SentimentUtils.SortByDate | lib/sentiment-utils.ts:45 | the sorted copy has the same points (multiset) and is ascending by date |
| SentimentUtils.InsertSorted | lib/sentiment-utils.ts:45 | inserting into a date-sorted list keeps it sorted |
| SentimentUtils.InsertBeforeEqualDates | lib/sentiment-utils.ts:45 | an inserted point goes in front of the points already there with its date |
| SentimentUtils.SortIsStable | lib/sentiment-utils.ts:45 | for every date, the points with that date appear in the sorted copy in their input order |
| SentimentUtils.SortKeepsDatesDistinct | lib/sentiment-utils.ts:45 | sorting keeps dates pairwise distinct |
| SentimentUtils.SortedUnique | lib/sentiment-utils.ts:45 | two date-sorted lists of the same points with distinct dates are equal, so the sort result is determined |
| SentimentUtils.Halves | lib/sentiment-utils.ts:45-47 | the halves concatenate to the sorted copy, hold the same points as the input, and the second has as many points as the first or one more |
| SentimentUtils.HalvesOrdered | lib/sentiment-utils.ts:45-47 | every point of the first half is dated no later than every point of the second |
| SentimentUtils.ChangePercent | lib/sentiment-utils.ts:52-53 | 0 when the first half's average is not positive; otherwise change × first average = (second − first) × 100 |
| SentimentUtils.DirectionOf | lib/sentiment-utils.ts:55-62 | stable iff −2 < change < 2; up iff change ≥ 2; down iff change ≤ −2 |
| SentimentUtils.RoundToTenth | lib/sentiment-utils.ts:64 | the reported change is a whole number of tenths within 0.05 of the exact one |
| SentimentUtils.SentimentTrend | lib/sentiment-utils.ts:37-65 | fewer than two points give stable with change 0 |
| SentimentUtils.TrendOrderIndependent | lib/sentiment-utils.ts:45-64 | for pairwise distinct dates, the trend does not depend on input order |
| SentimentUtils.TrendFromHalves | lib/sentiment-utils.ts:45-64 | with earlier-half average a1 and later a2: a1 ≤ 0 gives stable, 0; otherwise up iff 100(a2 − a1) ≥ 2·a1, down iff 100(a2 − a1) ≤ −2·a1, and the change is 100(a2 − a1)/a1 rounded to a tenth |
| SentimentUtils.TrendAgreesWithChange | lib/sentiment-utils.ts:55-64 | the rounded change is ≥ 2 when up, ≤ −2 when down and within [−2, 2] when stable |
| SentimentUtils.FlatTrendIsStable | lib/sentiment-utils.ts:53-57 | when the first half has no answers or both halves average the same, the trend is stable with change 0 |
| SentimentUtils.TrendFallingExample | lib/sentiment-utils.ts:37-65 | ten happy answers then ten sad ones give down with change −66.7 |
| SentimentUtils.ActiveMembers | lib/sentiment-utils.ts:117 | 0 when no team is active, non-negative when member counts are |
| SentimentUtils.ActiveMembersConcat | lib/sentiment-utils.ts:117 | the total is additive over concatenation |
| SentimentUtils.ActiveMembersSingle | lib/sentiment-utils.ts:117 | one team adds its member count iff it is active; with ActiveMembersConcat the total is the sum of memberCount over the active teams |
| SentimentUtils.SentimentStatsOf | lib/sentiment-utils.ts:70-129 | empty data gives zeros, stable and Critical/red/0 whatever the teams; otherwise the average, totals, trend, active members and classification of the whole list |
| SentimentUtils.EmptyStatsAgreeWithClassifier | lib/sentiment-utils.ts:85-89 | the hard-wired empty result equals the classification of score 0 |
| ChartUtils.ConfigStrictlyDescending | lib/chart-utils.ts:11-66 | the table's thresholds strictly descend, so the descending sort leaves it in declaration order |
| ChartUtils.FirstReached | lib/chart-utils.ts:136-144 | a found index is the first entry whose threshold the score reaches; none found iff the score is below every threshold |
| ChartUtils.Classify | lib/chart-utils.ts:132-151 | the score is returned unchanged; label and colour come from one table entry |
| ChartUtils.FirstReachedIsLargest | lib/chart-utils.ts:133-143 | in a descending table the first match has the largest threshold the score reaches |
| ChartUtils.FirstReachedMonotone | lib/chart-utils.ts:133-143 | a higher score never matches a later entry |
| ChartUtils.NegativeIsCritical | lib/chart-utils.ts:146-150 | a negative score matches no entry and falls through to Critical/red |
| ChartUtils.ClassifyPicksLargestThreshold | lib/chart-utils.ts:133-143 | every score ≥ 0 matches inside the loop, at the entry with the largest threshold not above it |
| ChartUtils.ClassifyLadder | lib/chart-utils.ts:13-58 | inclusive lower bounds: 2.7 Excellent/emerald, 2.3 Good/green, 2.0 Moderate/blue, 1.7 Neutral/yellow, 1.3 Needs Attention/orange, below that Critical/red |
| ChartUtils.Rank | lib/chart-utils.ts:133-150 | the rank names the entry whose label the classification carries |
| ChartUtils.ClassifyMonotone | lib/chart-utils.ts:133-143 | s1 ≤ s2 implies rank(s1) ≤ rank(s2) |
| ChartUtils.StylesFor | lib/chart-utils.ts:80-127 | a known colour gets its own styles, an unknown one the red styles |
| ChartUtils.ClassifiedColorsStyled | lib/chart-utils.ts:81-126 | every classification colour has its own style entry |
| Middleware.Decide | middleware.ts:8-63 | skipped paths pass; redirects go only to login or dashboard; cookies are deleted only on logout |
| Middleware.AfterResponse | middleware.ts:45-46 | the next request carries the same cookies minus those the redirect deletes |
| Middleware.LogoutRedirectsToLogin | middleware.ts:43-48 | logout redirects to /auth/login and deletes auth_session and user_data, whatever the login state |
| Middleware.GuardedPaths | middleware.ts:50-62 | on a guarded path: logged out off the auth pages goes to login; logged in on an auth page goes to dashboard; passes iff exactly one of the two holds |
| Middleware.LoginPageIsGuarded | middleware.ts:17-23 | /auth/login is an auth page the guard does not skip |
| Middleware.DashboardIsGuarded | middleware.ts:17-23 | /dashboard is a guarded, non-auth page |
| Middleware.NoRedirectLoop | middleware.ts:51-62 | /auth/login passes when logged out; /dashboard passes when logged in |
| Middleware.RedirectsSettle | middleware.ts:50-62 | following any non-logout redirect with the resulting cookies reaches a page that passes |
| Middleware.LogoutKeepsFallbackSession | middleware.ts:12-16 | with a non-empty auth cookie, logout leaves the user logged in and the login page bounces to /dashboard (Finding 1) |
| Middleware.DecideFixed | middleware.ts:43-48 | the corrected guard: skipped paths pass and redirects go only to login or dashboard |
| Middleware.FixedRedirectsSettle | middleware.ts:43-62 | with the fallback cookie deleted too, logout logs the user out and every redirect settles |
| LegacyMiddleware.Decide | middleware/middleware.ts:4-39 | skipped paths pass; a guarded path passes iff logged in ≠ auth page; a redirect goes to login iff logged out, and to the dashboard when logged in |
| LegacyMiddleware.EmptyCookieCountsAsSession | middleware/middleware.ts:6 | an auth cookie with an empty value still counts as logged in |
| LegacyMiddleware.RootIsGuarded | middleware/middleware.ts:27-30 | '/' is not exempt: logged out, it redirects to login |
| LegacyMiddleware.LogoutUnreachableWhenLoggedIn | middleware/middleware.ts:33-36 | logged in, /auth/logout redirects to the dashboard like every auth page |
| LegacyMiddleware.NoRedirectLoop | middleware/middleware.ts:27-38 | both redirect targets let the redirected user through |
| AddMemberModal.ValidateName | components/teams/add-member-modal.tsx:31-36 | with n the trimmed name's UTF-16 length: none iff 2 ≤ n ≤ 50; required iff the trimmed name is empty; too short iff n = 1; too long iff n > 50 |
| AddMemberModal.SingleEmojiNameAccepted | components/teams/add-member-modal.tsx:33 | one emoji (two UTF-16 units) is a long enough name; one letter is too short |
| AddMemberModal.FirstAt | components/teams/add-member-modal.tsx:25 | the index found holds the first '@'; none means no '@' |
| AddMemberModal.EmailShapeIsPattern | components/teams/add-member-modal.tsx:25 | the direct check accepts exactly the strings the pattern matches: no white space, one '@' with text before it, a '.' neither first nor last after it |
| AddMemberModal.PatternShape | components/teams/add-member-modal.tsx:25 | any split the pattern matches has the direct shape |
| AddMemberModal.ValidateEmail | components/teams/add-member-modal.tsx:24-29 | 'Email is required' iff the trimmed value is blank; the only errors are required and invalid |
| AddMemberModal.ValidateEmailMatchesPattern | components/teams/add-member-modal.tsx:25-28 | accepted iff the trimmed value matches the pattern |
| AddMemberModal.FormErrors | components/teams/add-member-modal.tsx:49-55 | keys ⊆ {name, email}; each key present iff its validator fails, holding that validator's message |
| AddMemberModal.LooksValidIgnoresLengthLimit | components/teams/add-member-modal.tsx:115 | the button check agrees with validation except for names over 50 UTF-16 units, where only the length error remains |
| AddMemberModal.LongNameEnablesButton | components/teams/add-member-modal.tsx:34 | a 51-letter name enables the button while validation rejects it |
| AddMemberModal.AddMemberForm.constructor | components/teams/add-member-modal.tsx:16-21 | empty name and e-mail, neutral, no errors, not successful, not pending |
| AddMemberModal.AddMemberForm.FieldChange | components/teams/add-member-modal.tsx:38-46 | only the edited field's error is cleared, and only if non-empty; the keys and every other error are kept; name or e-mail is stored |
| AddMemberModal.AddMemberForm.ChooseSentiment | components/teams/add-member-modal.tsx:293 | a sentiment click is ignored while pending |
| AddMemberModal.AddMemberForm.ValidateForm | components/teams/add-member-modal.tsx:48-59 | errors become those of the current values; true iff both validators pass |
| AddMemberModal.AddMemberForm.Reset | components/teams/add-member-modal.tsx:61-67 | empty name and e-mail, neutral, no errors, not successful |
| AddMemberModal.AddMemberForm.Close | components/teams/add-member-modal.tsx:69-74 | closes and resets iff not pending; nothing changes otherwise |
| AddMemberModal.AddMemberForm.BeginSubmit | components/teams/add-member-modal.tsx:76-90 | sends nothing when validation fails; otherwise sends the trimmed name and e-mail with team and sentiment and becomes pending |
| AddMemberModal.AddMemberForm.FinishSubmit | components/teams/add-member-modal.tsx:92-112 | success on an accepted result; a thrown error becomes the only error (its message or the default); pending ends |
| MemberList.FilterMembers | components/teams/member-list.tsx:27-31 | keeps exactly the members whose lower-cased name or e-mail contains the lower-cased term, a sub-multiset of the input |
| MemberList.FilterConcat | components/teams/member-list.tsx:27-31 | filtering distributes over concatenation, so original order is kept |
| MemberList.FilterIdempotent | components/teams/member-list.tsx:27-31 | filtering twice equals filtering once |
| MemberList.EmptyTermShowsAll | components/teams/member-list.tsx:27-31 | an empty term keeps every member |
| MemberList.ReplaceById | components/teams/member-list.tsx:46 | same length; matching ids become the returned member, all others are unchanged |
| MemberList.ReplaceKeepsIds | components/teams/member-list.tsx:46 | an unknown id changes nothing; a same-id replacement keeps the set of ids |
| MemberList.RemoveById | components/teams/member-list.tsx:64 | keeps exactly the members with another id; the id is gone |
| MemberList.RemoveConcat | components/teams/member-list.tsx:64 | removal distributes over concatenation, so survivors keep their order |
| MemberList.RemoveSingle | components/teams/member-list.tsx:64 | one member is dropped iff it has the id |
| MemberList.RemoveIdempotent | components/teams/member-list.tsx:64 | removing an absent id changes nothing; removing twice equals once |
| MemberList.CountBadge | components/teams/member-list.tsx:93 | the count's digits followed by " member" for 1 and " members" otherwise |
| MemberList.MemberTable.constructor | components/teams/member-list.tsx:21-24 | the given members, empty search, not editing, blank form |
| MemberList.MemberTable.Visible | components/teams/member-list.tsx:27-31 | shows the members matching the current term, never more rows than members; all of them for an empty term |
| MemberList.MemberTable.EmptyStateHasNoRows | components/teams/member-list.tsx:72-78 | the empty state appears only when no row could be shown, never for a team with members |
| MemberList.MemberTable.Search | components/teams/member-list.tsx:89 | stores the typed term |
| MemberList.MemberTable.Edit | components/teams/member-list.tsx:33-40 | edits that member's id with its name, e-mail and sentiment in the form |
| MemberList.MemberTable.EditName | components/teams/member-list.tsx:115 | changes only the form's name |
| MemberList.MemberTable.EditEmail | components/teams/member-list.tsx:127 | changes only the form's e-mail |
| MemberList.MemberTable.EditSentiment | components/teams/member-list.tsx:139 | changes only the form's sentiment |
| MemberList.MemberTable.Save | components/teams/member-list.tsx:42-53 | a returned member replaces the matching entries; a falsy result leaves the list; editing ends unless the call threw |
| MemberList.MemberTable.Cancel | components/teams/member-list.tsx:55-58 | not editing, blank neutral form |
| MemberList.MemberTable.Delete | components/teams/member-list.tsx:60-70 | a confirmed, completed delete removes exactly that id; otherwise nothing changes |
| TeamCard.CardOf | components/teams/team-card.tsx:52-85 | the four class names are built from one colour family |
| TeamCard.SentimentData | components/teams/team-card.tsx:52-85 | Excellent iff ≥ 2.5, Good iff in [2, 2.5), Neutral iff in [1.5, 2), Needs Attention iff < 1.5 |
| TeamCard.CardRank | components/teams/team-card.tsx:52-85 | the rank indexes the card ladder Needs Attention, Neutral, Good, Excellent |
| TeamCard.CardMonotone | components/teams/team-card.tsx:52-85 | a higher average never gets a lower card |
| TeamCard.Percent | components/teams/team-card.tsx:105-107 | percent × total = 100 × count, within [0, 100] |
| TeamCard.BarsOf | components/teams/team-card.tsx:105-107 | each bar's percent × total = 100 × its count |
| TeamCard.ProgressBarOf | components/teams/team-card.tsx:90-107 | 'No data' iff the team is empty; otherwise the bars of the three counts |
| TeamCard.ProgressBarFills | components/teams/team-card.tsx:91-107 | with recognised sentiments the counts sum to the member count and the percentages to 100 |
| TeamCard.PercentsFill | components/teams/team-card.tsx:105-107 | counts summing to the total give percentages summing to 100 |
| TeamCard.NextAverage | components/teams/team-card.tsx:151-179 | a provider's value, 0 on a throw, the fallback mean for members, and the previous value for an empty team without a provider |
| TeamCard.FallbackAverageRange | components/teams/team-card.tsx:159-168 | the fallback average lies in [0, 3], and in [1, 3] with recognised sentiments |
| TeamCard.EmptiedTeamKeepsOldAverage | components/teams/team-card.tsx:165-168 | a row whose team became empty keeps showing its old average (Finding 2) |
| TeamCard.NextAverageFixed | components/teams/team-card.tsx:159-168 | the corrected fallback: 0 for an empty team, unchanged otherwise |
| TeamCard.FixedAverageIgnoresHistory | components/teams/team-card.tsx:151-179 | the corrected average does not depend on the previous one |
| TeamCard.TeamRow.constructor | components/teams/team-card.tsx:148-149 | average 0, loading |
| TeamCard.TeamRow.Refresh | components/teams/team-card.tsx:151-179 | the new average is the next average from the old one; loading ends |
| TeamCard.TeamRow.Badge | components/teams/team-card.tsx:181 | the badge is the card for the row's current average; an average of 0 shows Needs Attention |
| TeamCard.FreshOrFailedRowNeedsAttention | components/teams/team-card.tsx:148-172 | a fresh row and a row whose provider threw both show Needs Attention |
| EnhancedTeamCard.SentimentCounts | components/dashboard/EnhancedTeamCard.tsx:27-31 | counts sum to the member count iff all sentiments are recognised; 3H + 2N + S is the weighted count |
| EnhancedTeamCard.SentimentScore | components/dashboard/EnhancedTeamCard.tsx:33-35 | 0 for no members; score × members = weighted count; within [0, 3], and ≥ 1 with recognised sentiments |
| EnhancedTeamCard.SentimentIndicator | components/dashboard/EnhancedTeamCard.tsx:38-57 | Strong iff ≥ 2.5, Moderate iff in [2, 2.5), At Risk iff < 2 |
| EnhancedTeamCard.BarWidth | components/dashboard/EnhancedTeamCard.tsx:98 | width × 3 = score × 100, within [0, 100] for scores in [0, 3] |
| EnhancedTeamCard.CardBarWithinBounds | components/dashboard/EnhancedTeamCard.tsx:98 | a card's bar never overflows |
| EnhancedTeamCard.EmptyTeamAtRisk | components/dashboard/EnhancedTeamCard.tsx:35-56 | no members: score 0, At Risk, empty bar |
| EnhancedTeamCard.UniformTeams | components/dashboard/EnhancedTeamCard.tsx:33-57 | an all-sad team is At Risk, an all-happy team Strong |
| TeamStats.TotalMembers | components/teams/team-stats-section.tsx:42 | 0 for no teams; at least each team's own count, a missing list counting 0; with TotalMembersSingle and TotalMembersConcat, exactly the sum of the teams' `MemberCount` |
| TeamStats.TotalMembersConcat | components/teams/team-stats-section.tsx:42 | the total is additive over concatenation |
| TeamStats.TotalMembersSingle | components/teams/team-stats-section.tsx:42 | one team adds exactly its member count; with TotalMembersConcat the total is the sum of the teams' counts |
| TeamStats.MemberCount | components/teams/team-stats-section.tsx:42 | a missing member list counts 0, a present one its length |
| TeamStats.HealthScore | components/teams/team-stats-section.tsx:46 | 0 without teams; otherwise in [70, 100], 100 iff the raw score ≥ 99.5, else the nearest integer to it |
| TeamStats.HealthMonotone | components/teams/team-stats-section.tsx:46 | more members never lower the score |
| TeamStats.JsRoundMonotone | components/teams/team-stats-section.tsx:46 | rounding is monotone |
| TeamStats.CalculateStats | components/teams/team-stats-section.tsx:36-53 | team count, member total, and the health score's digits followed by '%' |
| TeamStats.StatsExamples | components/teams/team-stats-section.tsx:46-51 | "0%" for no teams, "100%" for one team of three, "70%" for a team without a list |
| Dashboard.TotalMembersCountsAll | app/dashboard/page.tsx:24 | the reduce's total is the number of members across teams |
| Dashboard.MemberScore | app/dashboard/page.tsx:35-40 | 3/2/1 for the three sentiments, 2 for any other |
| Dashboard.ScoreSum | app/dashboard/page.tsx:35-40 | between the member count and three times it |
| Dashboard.ScoreSumIsWeighted | app/dashboard/page.tsx:35-40 | the score total is 3H + 2N + S plus 2 per unrecognised member |
| Dashboard.BreakdownOf | app/dashboard/page.tsx:29-34 | the three counters sum to the member count iff all sentiments are recognised |
| Dashboard.Tally | app/dashboard/page.tsx:27-42 | after the loops, memberCount = totalMembers, and the breakdown and score total are those of all members |
| Dashboard.OverallSentiment | app/dashboard/page.tsx:44-46 | 0 without members; otherwise average × count = score total, in [1, 3] |
| Dashboard.HappyPercentage | app/dashboard/page.tsx:48-50 | 0 without members; otherwise the rounded happy share, in [0, 100] |
| Dashboard.DashboardFigures | app/dashboard/page.tsx:24-64 | no members: 0, 0 and no overview; otherwise both figures in range and the overview shown |
| Dashboard.OverallAgreesWithCards | app/dashboard/page.tsx:44-46 | with recognised sentiments the overall figure is the members' weighted mean |
| Sidebar.ActiveSharesPrefix | components/layout/sidebar.tsx:54 | an active entry's href is a prefix of the path |
| Sidebar.ActiveFlags | components/layout/sidebar.tsx:15-54 | one flag per entry, set iff the entry is active; at most one set; none for '/' |
| Sidebar.AtMostOneActive | components/layout/sidebar.tsx:15-54 | two active entries are the same entry |
| Sidebar.ActiveExamples | components/layout/sidebar.tsx:54 | '/teams/abc' and '/teams' activate Teams, '/teamsx' does not, '/' does not activate Dashboard |
| AdminSettings.SettingsMap | app/admin-settings/page.tsx:9-12 | the map's keys are exactly the settings' keys |
| AdminSettings.BuildSettingsMap | app/admin-settings/page.tsx:9-12 | the loop's map equals the fold over the settings |
| AdminSettings.EmptySettings | app/admin-settings/page.tsx:9-12 | no settings give an empty map |
| AdminSettings.LastValueWins | app/admin-settings/page.tsx:10 | a key takes the value of its last setting |
| AdminSettings.DistinctKeysSize | app/admin-settings/page.tsx:9-12 | distinct keys give as many entries as settings |
| AdminSettings.DuplicateKeyExample | app/admin-settings/page.tsx:10 | a later value for the same key overwrites an earlier one |
| Domain.CountOf | components/teams/team-card.tsx:91-93 | a count never exceeds the member count |
| Domain.CountsPartition | components/teams/team-card.tsx:91-94 | the three counts sum to at most the member count, with equality iff all sentiments are recognised |
| Domain.CountOfConcat | components/dashboard/EnhancedTeamCard.tsx:28-30 | counts are additive over concatenation |
| Domain.JsRound | app/dashboard/page.tsx:49 | the rounded value is within half of x: x − ½ < n ≤ x + ½ |
| Domain.WeightedCount | components/teams/team-card.tsx:166 | the weighted count is at most 3 per member, and at least 1 per member when all are recognised |
| Domain.MeanScore | components/teams/team-card.tsx:166 | mean × member count = weighted count |
| Domain.MeanScoreRange | components/dashboard/EnhancedTeamCard.tsx:33-35 | the mean lies in [0, 3], and ≥ 1 when all sentiments are recognised |
| Text.Trim | components/teams/add-member-modal.tsx:32 | the trimmed text is no longer than the input |
| Text.TrimSpec | components/teams/add-member-modal.tsx:32 | the trimmed text is the infix left after stripping white space at both ends and neither starts nor ends with white space |
| Text.TrimNoWhitespace | components/teams/add-member-modal.tsx:86-87 | text without white space is its own trim |
| Text.Utf16Length | components/teams/add-member-modal.tsx:33-34 | JavaScript's `length`: between the number of characters and twice it, equal to it when no character lies outside the Basic Multilingual Plane |
| Text.Utf16LengthConcat | components/teams/add-member-modal.tsx:33-34 | the length of a concatenation is the sum of the lengths |
| Text.Utf16LengthSingle | components/teams/add-member-modal.tsx:33-34 | a character above U+FFFF counts two units, any other one |
| Text.ToLower | components/teams/member-list.tsx:29-30 | same length, each character lower-cased |
| Text.IncludesEmpty | components/teams/member-list.tsx:29-30 | every string contains the empty term |
| Text.NatToString | components/teams/team-stats-section.tsx:51 | at least one digit, no leading zero, "0" exactly for 0 |
| Text.NatToStringRoundTrip | components/teams/team-stats-section.tsx:51 | reading the rendered digits gives the number back |
| Ladders.SharedBoundaryAtTwo | lib/chart-utils.ts:31 | at 2.0 all three ladders switch together: chart rank ≥ Moderate, card ≥ Good, indicator not At Risk |
| Ladders.LaddersDisagree | components/teams/team-card.tsx:53 | 2.5 is Good on the chart but Excellent on the card and Strong on the indicator; 1.6 and 1.2 also get different labels |
| Ladders.TopOfScaleAgrees | lib/chart-utils.ts:13 | from 2.7 up all three ladders give their top step |

## Left out

- Server calls, `router.refresh()`, `window.location.reload()`, `confirm()` and console logging.
  Their outcomes are parameters (`SubmitOutcome`, `SaveOutcome`, `DeleteOutcome`, `AverageSource`, `confirmed`); logging is dropped.
- The add-member dialog's 1500 ms success timer, which resets and closes the dialog.
  Timers are not modelled; `Reset` is the state it ends in.
- `toFixed(1)` and `toLocaleDateString`: formatting for display only.
  `Dashboard.OverallSentiment` is the exact quotient before `toFixed`.
- IEEE doubles: all averages and percentages are exact reals.
  A JS result that rounds across a threshold (e.g. 2.4999999 shown where 2.5 was meant) is not captured.
- `new Date(date).getTime()`: dates are integer timestamps already.
- Unicode text handling:
  - `trim` and `\s` use a fixed white-space set (the ECMAScript WhiteSpace and LineTerminator characters).
  - `toLowerCase` folds only ASCII letters.
  - Text is a sequence of code points, so a lone UTF-16 surrogate cannot occur; `length` is `Text.Utf16Length`.
- Emoji, icons, JSX and Tailwind markup beyond the class names the functions return.
- The `matcher` of both guards (middleware.ts:67, middleware/middleware.ts:44).
  Almost every path it excludes is one the guard itself lets through.
  The exception: the `.` in `favicon.ico` is unescaped, so it also excludes paths such as `/favicon-ico`.
  The application serves those unguarded, but the models redirect a logged-out request for them to the login page.
- The middleware's development-mode logging branch.
- Overlapping asynchronous handlers. `MemberList.MemberTable.Save`, `MemberList.MemberTable.Delete` and `TeamCard.TeamRow.Refresh` are each one atomic step on the current state.
  The application's handlers work on the `members` list captured at render (components/teams/member-list.tsx:46, :64), so a save that finishes after a delete can bring the deleted member back.
  The row's effect (components/teams/team-card.tsx:151-179) is never cancelled, so a late reply for an older member list can overwrite a newer average.
  Neither interleaving can be expressed in the model.
- `sentimentBreakdown[member.sentiment]++` for an unrecognised sentiment adds a key holding `NaN`.
  `Dashboard.BreakdownOf` keeps only the three named counters.
- `getSentimentStyles`'s map is a plain object, so a colour such as `"constructor"` would hit an inherited property.
  `ChartUtils.StylesFor` treats only the six own keys as known.
- `OrZero` treats a count as missing only when it is absent.
  A `NaN` count, which `|| 0` would also replace with 0, is not modelled.
- lib/auth.ts, the API routes, the auth provider, the auth guards, the app layout and the three form components are not part of this model.
- SentimentUtils.SentimentTrend: its own contract covers only the under-two-points case.
  The general case is stated by `TrendFromHalves`, in terms of the two halves' averages.
  `TrendAgreesWithChange`, `TrendOrderIndependent`, `FlatTrendIsStable` and `TrendFallingExample` add consequences.
- AdminSettings.SettingsMap: a setting whose key is `__proto__` sets the prototype of the `{}` accumulator instead of storing an own key.
  The model stores every key as an ordinary entry, so it does not capture that case.
- The empty-teams branch of `TeamsTable` (components/teams/team-card.tsx:343-345) only chooses which markup to render.

## Findings

| source | as written | input that shows it | evidently intended | confidence | as-written member | corrected member |
|---|---|---|---|---|---|---|
| middleware.ts:43-48 | logout deletes `auth_session` and `user_data` but not the fallback `auth` cookie read at line 14 | cookies `{auth: "t"}`, request `/auth/logout`: redirect to `/auth/login` still carrying `auth`, which then redirects to `/dashboard` | logout also deletes `auth`, so the user is logged out | medium, not executed | Middleware.LogoutKeepsFallbackSession | Middleware.DecideFixed, Middleware.FixedRedirectsSettle |
| components/teams/team-card.tsx:165-168 | with no provider and zero members the average is not set, so the row keeps its previous value | a row showing 3.0 whose team becomes empty still shows 3.0 (Excellent) | an empty team averages 0, as a fresh row does | medium, not executed | TeamCard.EmptiedTeamKeepsOldAverage | TeamCard.NextAverageFixed, TeamCard.FixedAverageIgnoresHistory |
