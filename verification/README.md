# SkillSwap matching core, modelled in Dafny

SkillSwap is a single-page React application. Users list the skills they can teach and the
skills they want to learn, then find partners, connect and exchange messages. All data sits
in the browser's `localStorage`.

This project models the application's logic in Dafny and proves properties of it:

- **The AI matcher** (`src/utils/aiMatcher.js`):
  - Exact matching: a skill one user teaches that the other wants to learn, compared
    case-sensitively.
  - "Related" matching through a fixed keyword taxonomy of seven categories, including the
    duplicate check the source performs by substring.
  - The 0–100 compatibility score.
  - The explanation text and the recommendations.
- **The Smart Matches ranking** (`src/pages/SmartMatches.jsx`): leave out the current user,
  match everyone else, drop candidates without any match, then stably sort by compatibility
  and then by match score. Also the colour and label bands for a score.
- **The list operations of the pages**:
  - Dashboard: browse, search and filter users; the per-card "potential matches".
  - Profile: add, remove, edit and save skills.
  - Register: the validation order, the admin role and the token.
  - Leaderboard: the score and the stable ordering; the rank icons.
  - Swap Requests: list, accept and reject requests.
  - Admin dashboard: statistics, active users and deleting a user.
  - User detail: connection status, requests, accept, sending a message, and the detail
    view's potential matches.

Modelling choices:

- Storage is explicit. Each operation receives the stored lists (`users`, `connections`,
  `messages`) as sequences and returns the new lists.
- Values the source takes from its environment become parameters:
  - Each `Date.now()` reading is its own `nat` parameter, rendered in digits where the source turns it into an id or a token. Register reads the clock twice, once for the id and once for the token; the connection request and the message in UserDetail.jsx each read it once, for the id.
  - `new Date().toISOString()` is a string.
  - The answer to `window.confirm` is a `confirmed: bool`.
- JavaScript semantics are written out:
  - `Array.prototype.includes` is equality membership.
  - `String.prototype.includes` is `Strings.Contains`, a contiguous infix.
  - `toLowerCase` maps ASCII letters (`Strings.Lower`).
  - `trim` removes the ECMAScript WhiteSpace and LineTerminator code points (`Strings.Trim`).
  - `.length` of a string counts UTF-16 code units (`Strings.Utf16Length`).
  - `${n}` on a natural number is decimal digits (`Strings.NatToString`).
  - `Array.prototype.sort`, stable since ES2019, is a stable insertion sort on a
    lexicographic key (`Sorting.SortDesc`).
  - `Math.round` is `floor(x + 0.5)` over the reals (`Scoring.Round`).

Behaviour of the code that is easy to misread, modelled as written:

- Exact matching uses `Array.includes`, so it is case-sensitive and does not trim.
  "Python" and "python" give no exact match, and not a related one either, because their
  lower-cased forms are equal (`MatcherExamples.CaseOnlyDiffers`).
- The related-match duplicate check only looks at matches found earlier in the same call to
  `findRelatedSkills`. Nothing is deduplicated across the two directions
  (`MatcherExamples.SamePairBothDirections`).
- Categories are tested by substring. "guitar" therefore contains the design keyword "ui"
  and falls in *design* before *music* (`Taxonomy.GuitarIsDesignAndMusic`).
- Once "JavaScript → React" is recorded, it also covers the later pair "Java"/"React",
  because the arrow text contains both words (`MatcherExamples.SubstringSuppressesLaterPair`).

## Model

| member | source | states |
|---|---|---|
| Wrappers.Option.GetOr | src/utils/aiMatcher.js:3-6 | `x \|\| []`: a missing list reads as the default and a present one as itself |
| Records.WithoutUser | src/pages/SmartMatches.jsx:22 | keeps exactly the users whose id differs from the given one, in their order, with their multiplicities |
| Records.AcceptFirst | src/pages/SwapRequests.jsx:30-33 | only the first connection satisfying the test becomes accepted, everything else is unchanged; if no connection satisfies it the list is unchanged |
| Taxonomy.CategoriesComplete | src/utils/aiMatcher.js:56-64 | the category table lists every one of the seven categories |
| Taxonomy.FirstShared | src/utils/aiMatcher.js:75-79 | the category the loop stops at holds a keyword contained in both lowered skills; the result is none exactly when no category is shared |
| Taxonomy.FirstSharedIn | src/utils/aiMatcher.js:75-79 | the same over any category list, in list order |
| Taxonomy.GuitarIsDesignAndMusic | src/utils/aiMatcher.js:58-60 | "guitar" contains a design keyword ("ui") and a music keyword |
| Strings.Trim | src/pages/Profile.jsx:39 | the result is a contiguous slice of the input with no JS whitespace at either end; it is empty exactly when the input is all whitespace |
| Strings.TrimIdempotent | src/pages/Profile.jsx:39 | trimming twice is trimming once |
| Strings.Lower | src/utils/aiMatcher.js:67-69 | same length; each ASCII capital becomes the matching small letter and every other character is kept |
| Strings.LowerIdempotent | src/pages/Dashboard.jsx:21 | lower-casing twice is lower-casing once |
| Strings.ContainsEmpty | src/pages/Dashboard.jsx:21 | every string includes the empty search term |
| Strings.Join | src/utils/aiMatcher.js:152 | joining no parts gives the empty text, one part gives that part, and otherwise the text starts with the first part |
| Strings.NatToString | src/pages/Register.jsx:47 | the rendering is a non-empty run of digits with no leading zero |
| Strings.ParseNatToString | src/pages/Register.jsx:47 | reading the digits back yields the original number |
| Strings.Utf16Length | src/pages/Register.jsx:31 | a string's JS length is its code-point count plus one for every code point above U+FFFF; so it lies between the count and twice the count, and equals the count on basic-plane text |
| Strings.Utf16LengthConcat | src/pages/Register.jsx:31 | the JS length of a concatenation is the sum of the parts' lengths |
| Sorting.SortDesc | src/pages/SmartMatches.jsx:27-33 | the result is a permutation of the input, ordered by descending key, and keeps input order among equal keys |
| Sorting.SortDescMembers | src/pages/SmartMatches.jsx:27-33 | sorting neither adds nor drops an element |
| Matching.ExactFor | src/utils/aiMatcher.js:10-14 | the recorded skills are exactly the teacher's skills, in order, that the learner lists; each record is exact and has the given direction |
| Matching.ExactMatches | src/utils/aiMatcher.js:9-19 | the "you teach" records come first, then the "they teach" records, each direction being the filter of one user's teach list by the other's learn list |
| Matching.ArrowContainsBoth | src/utils/aiMatcher.js:86 | the recorded `teach → learn` text contains both skill names |
| Matching.TryCategories | src/utils/aiMatcher.js:75-93 | the category loop for one pair appends at most one record and none if the pair is already covered or shares no category; an appended record is the arrow text, in the given direction, tagged with a listed category that both skills share |
| Matching.PairStep | src/utils/aiMatcher.js:67-93 | one pair appends at most one record, and none when the two skills are equal after lower-casing or the pair is already covered |
| Matching.LearnLoop | src/utils/aiMatcher.js:68-95 | the inner loop only appends to the records found so far |
| Matching.TeachLoop | src/utils/aiMatcher.js:66-96 | the outer loop only appends to the records found so far |
| Matching.FindRelated | src/utils/aiMatcher.js:54-99 | at most \|teach\|·\|learn\| records; every record comes from a related pair of the inputs and is labelled with the first shared category; no two records share a skill text; every related pair of the inputs is covered by some record |
| Matching.TryCategoriesFirst | src/utils/aiMatcher.js:75-93 | the literal category loop, which keeps going when the duplicate check fires, gives the same result as "take the first shared category, push unless covered" |
| Matching.PairStepShape | src/utils/aiMatcher.js:72-93 | one pair either leaves the list alone or appends its arrow record, and only when the pair is related, not equal after lower-casing, and not yet covered; afterwards a related pair is covered |
| Matching.CoveredExtends | src/utils/aiMatcher.js:81-83 | a pair covered by a list stays covered once more records are pushed |
| Matching.PairStepSound | src/utils/aiMatcher.js:81-91 | one pair step keeps every record traceable to an input pair and keeps skill texts distinct |
| Matching.AppendFresh | src/utils/aiMatcher.js:84-90 | pushing the arrow record of an uncovered related pair keeps the records traceable and distinct |
| Matching.AppendSound | src/utils/aiMatcher.js:85-90 | the pushed record comes from its pair and carries the pair's first shared category |
| Matching.AppendDistinct | src/utils/aiMatcher.js:81-84 | when the pair is not covered, its arrow text differs from every skill text already recorded |
| Matching.LearnLoopGrows | src/utils/aiMatcher.js:68-95 | the inner loop only appends, at most one record per learn skill |
| Matching.LearnLoopSound | src/utils/aiMatcher.js:68-95 | the inner loop keeps the records traceable and distinct |
| Matching.LearnLoopCovers | src/utils/aiMatcher.js:68-95 | after the inner loop, every related pair of the teach skill with a learn skill is covered |
| Matching.TeachLoopGrows | src/utils/aiMatcher.js:66-96 | the outer loop only appends, at most \|teach\|·\|learn\| records |
| Matching.TeachLoopSound | src/utils/aiMatcher.js:66-96 | the outer loop keeps the records traceable and distinct |
| Matching.TeachLoopCovers | src/utils/aiMatcher.js:66-96 | after the outer loop, every related pair of the inputs is covered |
| Matching.FindRelatedEmptyLearn | src/utils/aiMatcher.js:66-68 | nobody to learn gives no related matches |
| Matching.TeachLoopNoLearn | src/utils/aiMatcher.js:66-68 | the outer loop over an empty learn list changes nothing |
| Matching.ExactForEmpty | src/utils/aiMatcher.js:10-14 | an empty teach or learn list gives no exact match |
| AiMatcher.RelatedMatches | src/utils/aiMatcher.js:22-23 | the records of the "you teach" search come first, exactly as that search returns them, then those of the "they teach" search; the count is bounded by the pair counts; every related pair in either direction is covered |
| AiMatcher.CoveredConcat | src/utils/aiMatcher.js:23 | concatenating the two directions keeps every pair covered |
| AiMatcher.MatchScore | src/utils/aiMatcher.js:46 | matchScore is exact + related/2, so it is at least the exact count |
| AiMatcher.MatchUsers | src/utils/aiMatcher.js:2-51 | the result carries the other user, exact and related lists as above, and allMatches as their concatenation (empty exactly when both are); the matchScore formula; the compatibility score, in 0..100, computed from the two match counts and the four list lengths; the explanation and the recommendations computed from those counts |
| AiMatcher.NoSkillsNoMatches | src/utils/aiMatcher.js:159-161 | a partner with no skills gives no match and only the "add more skills" recommendation |
| Matching.FindRelatedEmptyTeach | src/utils/aiMatcher.js:66 | nothing to teach gives no related matches |
| AiMatcher.ExactSymmetry | src/utils/aiMatcher.js:9-19 | swapping the two users swaps the two halves of the exact list and flips each direction |
| Scoring.Balance | src/utils/aiMatcher.js:119-120 | the balance ratio lies in [0,1], is 0 when a list is empty, and is 1 exactly when both counts are equal and positive |
| Scoring.BalanceSymmetric | src/utils/aiMatcher.js:119 | the balance does not depend on which count is the teach count |
| Scoring.Diversity | src/utils/aiMatcher.js:124 | diversity is the smaller of the two users' skill totals divided by ten |
| Scoring.RawScore | src/utils/aiMatcher.js:110-125 | the raw score is 25 per exact match plus 10 per related match plus five times the diversity, plus a balance bonus of at most 20; the bonus is exactly 20 when both profiles teach as many skills as they learn, and 0 when each profile lacks a teach or a learn list |
| Scoring.Round | src/utils/aiMatcher.js:127 | the rounded value is within half a unit, ties rounding up |
| Scoring.RoundMonotone | src/utils/aiMatcher.js:127 | rounding preserves order |
| Scoring.CompatibilityScore | src/utils/aiMatcher.js:102-128 | the score lies in 0..100 and is the rounded raw score capped at 100 |
| Scoring.ScoreMonotone | src/utils/aiMatcher.js:113-127 | more exact or related matches never lower the score |
| Scoring.FourExactMatchesSaturate | src/utils/aiMatcher.js:113-127 | four exact matches already reach the cap of 100 |
| Scoring.BandOf | src/utils/aiMatcher.js:142-150 | the four bands are exactly score ≥ 80, 60..79, 40..59 and below 40 |
| Explain.ExactSentence | src/utils/aiMatcher.js:134-136 | the sentence is exactly the lead-in with the count in digits followed by "match found." for one and "matches found." from two on |
| Explain.RelatedSentence | src/utils/aiMatcher.js:138-140 | the sentence is exactly the lead-in with the count in digits followed by "skill" for one and "skills" from two on, then the closing words |
| Explain.TierSentencesDistinct | src/utils/aiMatcher.js:142-150 | the four band sentences are different, so the sentence identifies the band |
| Explain.ExplanationParts | src/utils/aiMatcher.js:131-150 | one sentence per non-empty kind of match, in order, then one band sentence |
| Explain.Explanation | src/utils/aiMatcher.js:131-153 | the text is, case by case, the exact sentence, the related sentence and the band sentence present, joined by single spaces |
| Explain.JoinShape | src/utils/aiMatcher.js:152 | a join of two or more parts starts with the first part and a separator and ends with a separator and the last part |
| Explain.JoinSmall | src/utils/aiMatcher.js:152 | joining two or three parts puts one separator between neighbours |
| Explain.Learnable | src/utils/aiMatcher.js:165-167 | the suggestions are the partner's teach skills, in order and with every copy, that the user does not already want to learn |
| Explain.Teachable | src/utils/aiMatcher.js:174-176 | the suggestions are the partner's learn skills, in order and with every copy, that the user does not already teach |
| Explain.FirstThree | src/utils/aiMatcher.js:170 | the first three skills in the list's order joined by ", " (fewer when the list is shorter); an empty list gives the empty text |
| Explain.Recommendations | src/utils/aiMatcher.js:156-187 | no matches gives only the "add more skills" line; otherwise a "Consider learning" line exactly when there is something to learn, a "You could teach" line exactly when there is something to teach, in that order and nothing else, and the "Great match" line only when both lists are empty |
| Explain.NothingNewToSuggest | src/utils/aiMatcher.js:165-184 | when the user already wants everything the partner teaches and already teaches everything the partner wants, the only recommendation is "Great match" |
| Explain.SuggestsNewSkill | src/utils/aiMatcher.js:165-170 | a skill the partner teaches that the user does not yet want makes the first line "Consider learning: " followed by the first such skill |
| Explain.SuggestionsShape | src/utils/aiMatcher.js:170 | a line names at most three skills: once three are listed, the skills after them change nothing |
| MatcherExamples.PythonGuitarExample | src/utils/aiMatcher.js:2-51 | a Python/Guitar swap gives two exact matches, no related ones, score 71 and the "Great match" recommendation |
| MatcherExamples.ExampleLists | src/utils/aiMatcher.js:3-6 | the example profiles' lists read as given |
| MatcherExamples.ExampleExact | src/utils/aiMatcher.js:9-19 | the example's exact list, "you teach" first |
| MatcherExamples.ExampleRelated | src/utils/aiMatcher.js:72 | equal skills are skipped by the related search |
| MatcherExamples.ExampleScore | src/utils/aiMatcher.js:102-128 | two exact matches with balanced one-skill profiles score 71 |
| MatcherExamples.ExampleRecommendations | src/utils/aiMatcher.js:182-184 | nothing left to suggest gives the "Great match" line |
| MatcherExamples.LowerJavaReact | src/utils/aiMatcher.js:67-69 | lower-casing "Java" and "React" |
| MatcherExamples.JavaReactProgramming | src/utils/aiMatcher.js:57 | "java" and "react" share the programming category first |
| MatcherExamples.JavaReactPair | src/utils/aiMatcher.js:85-90 | teaching Java to a React learner gives one programming record "Java → React" |
| MatcherExamples.SamePairBothDirections | src/utils/aiMatcher.js:22-23 | the same pair found in both directions is recorded twice, once per direction |
| MatcherExamples.JavaReactBothExact | src/utils/aiMatcher.js:9-19 | two users who both teach Java and learn React share no exact match |
| MatcherExamples.JavaReactBothRelated | src/utils/aiMatcher.js:22-23 | their related list is Java → React once per direction, tagged programming |
| MatcherExamples.FigmaNotProgramming | src/utils/aiMatcher.js:57 | "figma" contains no programming keyword |
| MatcherExamples.GuitarFigmaDesign | src/utils/aiMatcher.js:58 | "guitar" and "figma" first share the design category |
| MatcherExamples.LowerGuitarFigma | src/utils/aiMatcher.js:67-69 | lower-casing "Guitar" and "Figma" |
| MatcherExamples.GuitarFigmaPair | src/utils/aiMatcher.js:75-90 | Guitar/Figma is recorded as a design match, not a music one |
| MatcherExamples.CaseOnlyDiffers | src/utils/aiMatcher.js:11-72 | "Python" against "python" is neither an exact match nor a related one |
| MatcherExamples.LowerJavaScript | src/utils/aiMatcher.js:67 | lower-casing "JavaScript" |
| MatcherExamples.JavaScriptReactProgramming | src/utils/aiMatcher.js:57 | "javascript" and "react" share the programming category first |
| MatcherExamples.FirstPairRecorded | src/utils/aiMatcher.js:84-90 | the first related pair is pushed |
| MatcherExamples.JavaReactCovered | src/utils/aiMatcher.js:81-83 | the record "JavaScript → React" counts as covering "Java"/"React" |
| MatcherExamples.SecondPairDropped | src/utils/aiMatcher.js:81-84 | so the later Java/React pair is not pushed |
| MatcherExamples.SubstringSuppressesLaterPair | src/utils/aiMatcher.js:66-96 | teaching JavaScript and Java to a React learner yields the single record "JavaScript → React" |
| SmartMatches.ScoreAll | src/pages/SmartMatches.jsx:24-25 | one match result per candidate, in order |
| SmartMatches.ScoredMembers | src/pages/SmartMatches.jsx:24-26 | after scoring every candidate and dropping the scores without a match, what is left is exactly the scores that have one |
| SmartMatches.MatchedMembers | src/pages/SmartMatches.jsx:22-26 | a result survives exactly when it is the match of some other user with at least one match |
| SmartMatches.Rank | src/pages/SmartMatches.jsx:27-33 | a permutation ordered by compatibility score and then by match score, both descending, keeping input order among ties |
| SmartMatches.LoadMatches | src/pages/SmartMatches.jsx:16-38 | every listed match is about a stored user other than the current one, and the list is ordered as Rank states |
| SmartMatches.LoadMatchesSound | src/pages/SmartMatches.jsx:22-26 | every listed entry is the matcher's result for that user and has at least one match |
| SmartMatches.LoadMatchesComplete | src/pages/SmartMatches.jsx:22-26 | every other stored user with at least one match is listed |
| SmartMatches.CompatibilityColor | src/pages/SmartMatches.jsx:47-52 | the colour for each of the four score bands |
| SmartMatches.CompatibilityLabel | src/pages/SmartMatches.jsx:54-59 | the label for each of the four score bands |
| Dashboard.Browsable | src/pages/Dashboard.jsx:13-16 | the browsed users are the stored users whose id differs from the current user's, in stored order, with every copy kept |
| Dashboard.MatchesSearch | src/pages/Dashboard.jsx:20-24 | an empty search term matches every user |
| Dashboard.Shown | src/pages/Dashboard.jsx:26-33 | "teach" and "learn" show a matching user exactly when that list is non-empty; every other filter value shows exactly the matching users |
| Dashboard.FilteredUsers | src/pages/Dashboard.jsx:19-34 | a user is shown exactly when the case-insensitive search matches their name, location or a skill, and the filter type's list is non-empty for "teach"/"learn"; stored order is kept and so is every copy of a shown user |
| Dashboard.EmptySearchShowsAll | src/pages/Dashboard.jsx:19-26 | an empty search with filter "all" shows every browsed user |
| Dashboard.SearchIgnoresTermCase | src/pages/Dashboard.jsx:20-24 | searching a term or its lower-cased form shows the same users |
| Dashboard.Labelled | src/pages/Dashboard.jsx:45-56 | one card entry per skill, with the given label and partner name |
| Dashboard.Listing | src/pages/Dashboard.jsx:42-58 | the "I can teach" entries come first, then the "They can teach" entries |
| Dashboard.PotentialMatches | src/pages/Dashboard.jsx:36-59 | entries are my teach skills the partner wants, then their teach skills I want, each in order and addressed to the partner |
| Dashboard.ListingFollows | src/pages/Dashboard.jsx:36-59 | a listing agrees entry by entry with any exact list of the same skills and directions |
| Dashboard.CardAgreesWithMatcher | src/pages/Dashboard.jsx:36-59 | the dashboard card lists the same skills, in the same order and directions, as the matcher's exact matches |
| ProfileEdit.InitialForm | src/pages/Profile.jsx:17-28 | the form holds the profile's name, email, bio, location and skill lists; a missing bio, location or skill list reads as empty |
| ProfileEdit.SetField | src/pages/Profile.jsx:30-35 | editing a field sets that field and leaves the others |
| ProfileEdit.AddSkill | src/pages/Profile.jsx:39-43 | the trimmed input is appended exactly when it is non-empty and not already listed; a list without duplicates stays without |
| ProfileEdit.AddSkillTeach | src/pages/Profile.jsx:37-46 | adds to the teach list; the input box is cleared only when a skill was added; the other fields are unchanged |
| ProfileEdit.AddSkillLearn | src/pages/Profile.jsx:55-64 | adds to the learn list; the input box is cleared only when a skill was added; the other fields are unchanged |
| ProfileEdit.RemoveSkill | src/pages/Profile.jsx:51 | every copy of the skill is removed, every other skill keeps its count and order |
| ProfileEdit.RemoveSkillTeach | src/pages/Profile.jsx:48-53 | removes from the teach list only |
| ProfileEdit.RemoveSkillLearn | src/pages/Profile.jsx:66-71 | removes from the learn list only |
| ProfileEdit.AddThenRemove | src/pages/Profile.jsx:37-53 | adding a new skill and removing it again gives back the list |
| ProfileEdit.Merge | src/pages/Profile.jsx:76-84 | the saved profile shows exactly the form's fields; its id, password, role and creation time are kept |
| ProfileEdit.SaveAll | src/pages/Profile.jsx:76-78 | the stored user with the current id is replaced by the merged profile and every other user is unchanged |
| ProfileEdit.Save | src/pages/Profile.jsx:73-88 | every stored entry with the current id becomes its merge with the form and every other entry is unchanged; the session user reopens as the form and keeps its id, password, role and creation time |
| Registration.ErrorMessage | src/pages/Register.jsx:26-42 | each of the three refusals has its own message, the exact text the page shows |
| Registration.NewUser | src/pages/Register.jsx:46-57 | the new user's id is the timestamp in digits, the skill lists and bio are empty, and the role is admin exactly for the admin email |
| Registration.Token | src/pages/Register.jsx:62 | the token is "token_" followed by the decimal rendering of the timestamp (no leading zero), whose digits read back as the timestamp |
| Registration.Submit | src/pages/Register.jsx:22-64 | mismatch first, then a password shorter than six, then a taken email, each refusing with the store unchanged; otherwise the new user, with the first clock reading as its id, is appended and the token is built from the second reading |
| Registration.AstralPasswordTooShort | src/pages/Register.jsx:31-34 | a password of one emoji and three letters has JS length 5 and is refused as too short |
| Leaderboard.StatOf | src/pages/Leaderboard.jsx:16-30 | the counts are the user's accepted connections and sent messages, and the score is 10 and 2 points for them |
| Leaderboard.StatsOf | src/pages/Leaderboard.jsx:16-30 | one statistic per stored user, in order |
| Leaderboard.LoadLeaderboard | src/pages/Leaderboard.jsx:11-34 | a permutation of the users' statistics by descending score, keeping stored order among equal scores |
| Leaderboard.LeaderboardEntries | src/pages/Leaderboard.jsx:16-31 | every stored user's statistic is listed, and every listed entry is the statistic of a stored user |
| Leaderboard.RankIcon | src/pages/Leaderboard.jsx:36-41 | medals exactly for ranks 0, 1 and 2; otherwise "#" followed by the decimal rendering of the one-based rank |
| SwapRequests.PendingList | src/pages/SwapRequests.jsx:15-16 | exactly the pending connections addressed to the user, in stored order, with every copy kept |
| SwapRequests.WithSenders | src/pages/SwapRequests.jsx:17-23 | each request carries the first stored user with the sender's id, or none |
| SwapRequests.LoadRequests | src/pages/SwapRequests.jsx:11-26 | one request per pending incoming connection, with its sender looked up |
| SwapRequests.Accept | src/pages/SwapRequests.jsx:28-37 | the first connection with the id becomes accepted and all others are unchanged; an unknown id changes nothing |
| SwapRequests.AcceptLeavesOthersPending | src/pages/SwapRequests.jsx:28-34 | after accepting, the request list is the old one without the accepted request |
| SwapRequests.Reject | src/pages/SwapRequests.jsx:39-44 | every connection with the id is removed, all others are kept in order |
| AdminDashboard.Participants | src/pages/AdminDashboard.jsx:28-32 | the active ids are exactly the senders and receivers of some message, at most two per message |
| AdminDashboard.CollectActive | src/pages/AdminDashboard.jsx:28-32 | the loop adding both ids of each message computes that set |
| AdminDashboard.LoadStats | src/pages/AdminDashboard.jsx:19-40 | the totals are the list lengths and the accepted count; the active-user count is the number of distinct sender and receiver ids, at most twice the number of messages, and zero exactly when there are no messages |
| AdminDashboard.LeaderboardWithinTotals | src/pages/AdminDashboard.jsx:36 | one user's accepted connections never exceed the site's accepted total |
| AdminDashboard.DeleteUser | src/pages/AdminDashboard.jsx:42-48 | when confirmed, every user with that id is removed and every other user keeps its order and its number of copies; otherwise nothing changes |
| UserDetail.ConnectionStatus | src/components/UserDetail.jsx:7-19 | no link exactly when no connection joins the pair in either direction; otherwise the first such connection's status |
| UserDetail.SendRequest | src/components/UserDetail.jsx:53-66 | appends one pending connection from me to the other user, whose id is the clock reading in digits; earlier entries are unchanged |
| UserDetail.RequestThenStatus | src/components/UserDetail.jsx:53-66 | after sending a request the status is pending unless an earlier connection already joined the pair |
| UserDetail.AcceptConnection | src/components/UserDetail.jsx:70-81 | the first connection from the other user to me becomes accepted; all others are unchanged |
| UserDetail.AcceptThenStatus | src/components/UserDetail.jsx:70-81 | when that connection is the first one joining the pair, the status becomes accepted |
| UserDetail.SendMessage | src/components/UserDetail.jsx:83-106 | a blank draft changes nothing; without an accepted connection nothing is stored; otherwise the trimmed message, with the clock reading in digits as its id, is stored and shown and the draft cleared |
| UserDetail.DeliveredIsTrimmed | src/components/UserDetail.jsx:99 | a delivered message is non-empty and has no surrounding whitespace |
| UserDetail.DeliveredCounts | src/components/UserDetail.jsx:102-103 | after delivery the sender's leaderboard message count is one higher and both users are active for the admin statistics |
| UserDetail.Detailed | src/components/UserDetail.jsx:38-48 | one entry per skill with the given label and direction |
| UserDetail.Listing | src/components/UserDetail.jsx:36-50 | outgoing entries come first, then incoming ones |
| UserDetail.PotentialMatches | src/components/UserDetail.jsx:30-51 | entries are my teach skills the other user wants (outgoing), then theirs I want (incoming) |
| UserDetail.SameAsDashboard | src/components/UserDetail.jsx:30-51 | the detail view lists the same skills in the same order as the dashboard card |

## Left out

- Storage: `localStorage`, `JSON.parse` and `JSON.stringify` are not modelled. The lists are parameters and results.
- Time: `Date.now()` and ISO timestamps are parameters, and their values are not checked.
- UserDetail.jsx's loading of a message thread (lines 21-27) is not modelled, because its sort compares parsed dates. The thread on screen is a parameter of `UserDetail.SendMessage`, in whatever order the caller passes.
- React state, rendering and JSX are not modelled: tabs, modals, the 800 ms analysis delay in SmartMatches, `alert`, and which buttons appear. This includes the "view only the first three matches" display and the pending/accepted labels.
- `window.confirm` is a boolean parameter.
- Messages.jsx, Login.jsx, App, Layout, Navbar and Sidebar are not part of this model.
- Numbers: scores are exact reals, not IEEE-754 doubles. A rounding tie that a double would represent inexactly is not modelled.
- Text: `toLowerCase` only maps ASCII letters, so non-ASCII case mappings are not modelled.
- The signed-in user always exists, so the `user?.` fallbacks of Profile.jsx:6-11 are not modelled. The sender lookup of a swap request is an `Option`, and the display fallbacks on a missing sender (SwapRequests.jsx:63-68) are not modelled.
- Connection statuses other than pending and accepted (the source never writes any) are not modelled.
- Explain.Explanation: takes the two match counts instead of the match lists, because the text depends only on their lengths.
- SmartMatches.LoadMatches: its own contract states only self-exclusion and order. Membership is stated by SmartMatches.LoadMatchesSound and SmartMatches.LoadMatchesComplete, and the permutation by SmartMatches.Rank.
