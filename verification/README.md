# Portfolio site: verified model of its stateful logic

The site is a one-page React portfolio. Most of it is markup. This project
models the parts that hold state or compute a value, one Dafny module per
component:

- `Hero` (`hero.dfy`): the typewriter animation in the hero banner. It types
  one of four job titles a character at a time, pauses, deletes the title a
  character at a time, then moves to the next title modulo 4. The class
  `Typewriter` holds the three state cells. Its handlers are specified by the
  pure `Tick` and `Pause`. Timer expiries are explicit events.
- `Header` (`header.dfy`): the scroll-spy and the mobile menu flag. The
  document becomes a map from section id to `offsetTop`/`offsetHeight`. A
  section missing from the map is one with no element in the document.
- `Theme` (`theme.dfy`): the root component's dark/light theme. It covers
  the toggle, the choice at load and the sync that writes the theme to
  storage and to the document root's class list. Storage is a map, the class
  list a set, and the system colour-scheme query a boolean.
- `Contact` (`contact.dfy`): the contact form's field updates and its submit
  protocol (begin, then complete with success or failure, then a status
  reset). The e-mail service call becomes a boolean outcome.
- `About` (`about.dfy`): the age, in whole years, between two (year, month,
  day) dates.
- `Skills` (`skills.dfy`): grouping skills into cards by category, the
  colour lookup with its fallback, and the rounded average level.
- `Optional` (`optional.dfy`): the option type, used for `null` results.

The comment at `src/App.tsx:18` says the initial theme follows the user's
preference or the system preference. The code that follows, at
`src/App.tsx:22-26`, can only set `'dark'` from the system preference, and
`'dark'` is already the initial value. So with nothing stored the theme is
`dark` whatever the system prefers. The model follows the code
(`Theme.SystemPreferenceIsIgnored`).

The stored theme is adopted by an unchecked cast (`src/App.tsx:23`), so any
non-empty stored string becomes the theme. The model keeps the theme as a
string. `Theme.ToggleTwiceIsIdentity` holds only for `dark` and `light`;
`Theme.ToggleTwiceNormalises` shows what toggling does to any other value.

## Model

| member | source | states |
|---|---|---|
| Hero.Tick | src/components/Hero.tsx:21-41 | A tick keeps the text a prefix of the current title. Typing an incomplete title appends exactly its next character. A tick on a fully typed title changes nothing. A tick never starts deleting. Deleting removes exactly the last character. On empty text it clears the flag and advances the index modulo 4 |
| Hero.Pause | src/components/Hero.tsx:28 | The pause timer sets the deleting flag and keeps text and index |
| Hero.Delay | src/components/Hero.tsx:38 | The next tick is armed with 50 ms while deleting and 100 ms while typing |
| Hero.Run | src/components/Hero.tsx:21-41 | Any sequence of tick and pause events keeps the index in range and preserves the prefix invariant |
| Hero.ReachableStatesAreValid | src/components/Hero.tsx:10-35 | Every state reachable from the initial one shows a prefix of its title, at most 18 characters long |
| Hero.TypingCompletes | src/components/Hero.tsx:25-26 | Typing ticks grow any typed prefix into the whole title |
| Hero.DeletingEmpties | src/components/Hero.tsx:31-32 | As many deleting ticks as there are characters empty the text |
| Hero.FullCycle | src/components/Hero.tsx:24-35 | Start at empty text, typing, title i. Run n typing ticks, one tick on the full title, the pause, n deleting ticks and one more tick. The result is empty text, typing, title (i+1) mod 4 |
| Hero.Typewriter.constructor | src/components/Hero.tsx:10-12 | The animator starts with empty text, index 0, typing |
| Hero.Typewriter.TickElapsed | src/components/Hero.tsx:21-41 | The tick handler's new state is `Tick` of the old one, and the invariant is kept |
| Hero.Typewriter.PauseElapsed | src/components/Hero.tsx:28 | The pause handler's new state is `Pause` of the old one, and the invariant is kept |
| Hero.Typewriter.NextDelay | src/components/Hero.tsx:38 | The interval chosen for the next tick is `Delay` of the current state |
| Header.FirstMatch | src/components/Header.tsx:21-36 | The result is a nav id whose existing section's half-open range holds the position. It is `None` exactly when no section's range holds the position |
| Header.EarliestMatchWins | src/components/Header.tsx:26-33 | The matching id with no matching id before it is the one selected, so with overlapping ranges the earlier section wins |
| Header.NothingEarlierMatches | src/components/Header.tsx:26-33 | No id before the selected one has a section holding the position |
| Header.MissingSectionNeverSelected | src/components/Header.tsx:27-28 | A section with no element in the document is never selected |
| Header.RangeIsHalfOpen | src/components/Header.tsx:30 | The position `offsetTop + offsetHeight` is outside that section |
| Header.ExampleScrollPositions | src/components/Header.tsx:23-33 | Home at [0,800), about at [800,1400), skills at [1400,2000). Scroll 650 selects home, 750 selects about, and 1900 selects nothing |
| Header.Navigation.constructor | src/components/Header.tsx:10-11 | The menu starts closed and the active section is `home` |
| Header.Navigation.HandleScroll | src/components/Header.tsx:22-36 | The loop sets the active section to the first match at `scrollY + 100`. With no match the section is unchanged. It stays a nav id and the menu flag is untouched |
| Header.Navigation.ScrollToSection | src/components/Header.tsx:42-48 | A navigation click closes the menu whether or not the target exists. The active section is unchanged |
| Header.Navigation.ToggleMenu | src/components/Header.tsx:107 | The menu button negates the menu flag |
| Theme.GetItem | src/App.tsx:19 | Reading storage gives the stored string, or `None` exactly when the key is absent |
| Theme.Toggled | src/App.tsx:13-15 | The toggle yields a theme. The result is `light` exactly when the input is `dark` |
| Theme.ToggleTwiceIsIdentity | src/App.tsx:13-15 | Toggling `dark` or `light` twice gives it back |
| Theme.ToggleTwiceNormalises | src/App.tsx:13-23 | Toggling any other adopted string twice gives `light`, not the string |
| Theme.ToggledTimes | src/App.tsx:13-15 | After at least one toggle the theme is `dark` or `light` |
| Theme.TogglesAlternate | src/App.tsx:13-15 | After n toggles the theme is the original one for even n and its toggle for odd n |
| Theme.InitialTheme | src/App.tsx:11-27 | A non-empty stored value becomes the theme. A missing or empty one leaves `dark` |
| Theme.SystemPreferenceIsIgnored | src/App.tsx:20-26 | The initial theme does not depend on the system colour-scheme preference |
| Theme.AppliedClasses | src/App.tsx:33-38 | After syncing, the root has class `dark` exactly when the theme is `dark`. No other class changes |
| Theme.ToggleTwiceRestores | src/App.tsx:13-38 | Start with storage and classes in sync with a theme, then toggle twice. Storage and the class list are back to what they were |
| Theme.ThemeController.Mount | src/App.tsx:11-39 | At load the theme is `InitialTheme` of the stored value. Storage holds it under `theme`, and the root classes match it |
| Theme.ThemeController.ToggleTheme | src/App.tsx:13-15 | The theme is toggled. Storage key `theme` is rewritten, no other key changes, and the `dark` class follows the theme |
| Theme.ThemeController.Sync | src/App.tsx:29-39 | The sync effect writes the theme under `theme` and adds or removes only the `dark` class |
| Contact.TemplateParams | src/components/Contact.tsx:36-41 | The payload has exactly the keys name, email, title and message. Three carry their fields unchanged and `title` carries the subject |
| Contact.TemplateParamsRoundTrip | src/components/Contact.tsx:36-41 | The four form fields can be read back from the payload, so nothing typed is lost |
| Contact.TemplateParamsInjective | src/components/Contact.tsx:36-41 | Two forms send the same payload exactly when their four fields agree |
| Contact.ContactForm.constructor | src/components/Contact.tsx:11-18 | The form starts with four empty fields, not submitting, and no status |
| Contact.ContactForm.HandleChange | src/components/Contact.tsx:24-29 | A change sets exactly the named field. All other fields, the flag and the status are unchanged |
| Contact.ContactForm.HandleSubmit | src/components/Contact.tsx:31-41 | A submit begins by setting the flag and clearing the status, and sends the form's payload. While a send is in flight the disabled button makes it do nothing |
| Contact.ContactForm.CompleteSubmit | src/components/Contact.tsx:43-51 | On success the status is `success` and the four fields are empty. On failure the status is `error` and the form is unchanged. Either way the flag is cleared |
| Contact.ExampleSubmissions | src/components/Contact.tsx:24-54 | Fill in A, a@b.com, S, M and submit. The payload carries the subject as `title`. A second submit while in flight sends nothing. Failure keeps the four fields with status `error`. A resubmit that succeeds empties them with status `success`. The reset clears the status |
| Contact.ContactForm.ResetStatus | src/components/Contact.tsx:52 | The reset timer clears the status and changes nothing else |
| About.Age | src/components/About.tsx:10-21 | The age is the year difference or one less. It is one less exactly when today is before this year's birthday |
| About.AgeIsCompletedYears | src/components/About.tsx:13-18 | The age-th anniversary is on or before today, and the next one is after today |
| About.CompletedYearsUnique | src/components/About.tsx:13-18 | No other number of years has that property |
| About.NoDecrementOnBirthday | src/components/About.tsx:16 | On the birthday itself the age is the full year difference |
| About.AgeNonNegative | src/components/About.tsx:13-18 | From the date of birth on, the age is not negative |
| About.AgeMonotone | src/components/About.tsx:13-18 | The age never decreases as today advances |
| About.BirthdayExamples | src/components/About.tsx:12-18 | With birth date 2009-11-04, 2025-11-03 gives 15 and 2025-11-04 gives 16 |
| Skills.ByCategory | src/components/Skills.tsx:18-20 | The result is a subsequence of the skills, all of the category. Each skill occurs as often as in the input if it has the category, and not at all otherwise |
| Skills.Cards | src/components/Skills.tsx:59-63 | The cards are a subsequence of the categories. A category gets a card exactly when it has a skill |
| Skills.CardsPartitionSkills | src/components/Skills.tsx:10-20 | If every skill's category is one of the distinct card names, the card lengths sum to the number of skills |
| Skills.CardNamesDistinct | src/components/Skills.tsx:10-16 | The five card names are all different |
| Skills.PortfolioCardsPartition | src/components/Skills.tsx:59-132 | For the site's data, the five cards list six skills together, the "Total Skills" count |
| Skills.ColorClasses | src/components/Skills.tsx:22-31 | A known colour gets its own classes and any other colour gets blue's. The result is always one of the five |
| Skills.ColorsAreDistinct | src/components/Skills.tsx:23-29 | Different known colours get different classes |
| Skills.CardColorsKnown | src/components/Skills.tsx:10-16 | Every card's colour is in the colour map, so the fallback is never used for the cards |
| Skills.AverageProficiency | src/components/Skills.tsx:143 | The result r is the mean rounded half up, `r - 1/2 <= sum/n < r + 1/2`, for a non-empty list |
| Skills.AverageWithinLevels | src/components/Skills.tsx:143 | The average lies between any lower and upper bound of the levels |
| Skills.PortfolioAverage | src/components/Skills.tsx:143 | The site's levels sum to 495, and 82.5 is shown as 83 |

## Left out

- Rendering: all JSX, CSS class strings other than the colour map, icons and layout. `src/components/Projects.tsx` and `src/components/Footer.tsx` are presentation only and are not part of this model.
- Timers: `setTimeout` and `clearTimeout` become the explicit events `TickElapsed`, `PauseElapsed` and `ResetStatus`. Real time, and clearing a pending timer on unmount, are not modelled.
- Hero.Typewriter.PauseElapsed: the model does not track which pause timers are pending. It may fire at any time, which covers the extra, uncleared 2000 ms timers armed whenever the full title is ticked more than once. The invariants are proved for all such orders.
- DOM and window APIs: `getElementById` becomes a map lookup and `scrollY` an integer. `scrollIntoView`, `window.scrollTo` and registering the scroll listener are not modelled.
- Header.Navigation.ScrollToSection: the smooth scroll to the target is not modelled, only the menu flag.
- Storage and the media query: `localStorage` is a map field and `matchMedia` a boolean parameter. Access failures are not modelled.
- The e-mail service and `console.error`: the send becomes the boolean passed to `CompleteSubmit`. Service id, template id and public key are configuration and are omitted.
- `e.preventDefault()` has no counterpart in the model.
- About.Age: `new Date()` and ISO date parsing are not modelled. The source parses the birth date as UTC midnight and reads local getters, which can shift the day by one west of UTC. The model takes both dates as (year, month, day) triples.
- Skills.AverageProficiency: `Math.round` of a floating-point quotient is computed in integers as the exact half-up rounding of the mean. Floating-point error is not modelled.
- Skills.AverageProficiency: an empty skill list is excluded by its precondition. The source then divides 0 by 0 and shows `NaN%`, which the model does not represent.
- Skills.ColorClasses: the colour map is a plain map. Keys inherited by a JavaScript object, such as `constructor`, are not modelled.
- React scheduling: each handler and effect is one atomic step, and re-renders are not modelled.
