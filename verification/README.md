# vibing: context classifiers, playback session and track query, in Dafny

`vibing` is a music player that picks tracks to suit the moment. It reads
the hour, the month and the current weather, turns each into a coarse
bucket, and plays audio files through an output sink. This project models
the parts of it that are pure logic:

- `DataCollector` (`data_collector.dfy`) models the three context
  classifiers of `src/data_collector.rs`.
  - The hour of the day becomes a `TimePeriod`: seven ranges, where the
    first range that matches wins.
  - The month becomes a `Season`.
  - A weather provider's description becomes a `Weather`. The lookup table
    has 50 entries, and the temperature passes through unchanged.
- `AudioServices` (`audio_services.dfy`) models the playback session
  `Audio` of `src/audio_services.rs`.
  - The session is an immutable record. It holds the sink's paused and
    empty flags and its volume, the stored `State`, the instant playback
    last started, and the play time of the intervals already closed by a
    pause.
  - `play`, `pause`, `set_volume`, `get_volume`, `get_elapsed_time`,
    `get_current_state` and `is_end` are pure functions. `play`, `pause`
    and `get_elapsed_time` read the clock, so they take an explicit instant
    `now` in place of `Instant::now()`. The others take none.
  - The sink running out of audio is an environment step, `Drain`.
- `Database` (`database.dfy`) models the pure slice of `src/database.rs`.
  - `TrackHeader` equality compares ids only.
  - `get_tracks_by_vibes` builds its query before anything is sent to
    SQLite. The model covers the empty-input short cut, the exact SQL text
    with its `?` list and `HAVING` constant, and the binding of each name in
    order.
- `Wrappers` (`wrappers.dfy`) holds `Option`.

The whole-session result is `AudioServices.ElapsedIsPlayedTime`. It covers
any clock-ordered sequence of plays, pauses, volume changes and drains.
After such a sequence, the elapsed time the session reports equals the total
length of the intervals from each play to the next pause. Paused gaps are
never counted. Time after the sink has run dry is counted, even though
`get_current_state` then reports Stopped, because the stored state stays
Playing until a pause (`AudioServices.ElapsedCountsAfterEnd`).

## Model

| member | source | states |
|---|---|---|
| `DataCollector.ClockHour` | src/data_collector.rs:63 | A clock reading `hour:minute` with a valid minute stands for an hour in `[hour, hour + 1)`. It is the whole hour exactly when the minute is 0. |
| `DataCollector.GetTime` | src/data_collector.rs:65-73 | The classifier is total and carries the hour unchanged. Its result is the half-open partition that first-match-wins over the closed ranges amounts to: Dawn is exactly [5, 7], each later period starts just after the previous one ends, and Night is everything below 5 or above 22. |
| `DataCollector.SharedBoundaries` | src/data_collector.rs:66-71 | Each shared boundary goes to the earlier range: 7.0 is Dawn, 11.0 Morning, 13.0 Noon, 17.0 Afternoon, 19.0 Dusk and 22.0 Evening. |
| `DataCollector.ClockPeriods` | src/data_collector.rs:62-73 | On a clock reading `hour:minute`, the periods are exact ranges of the minute of the day. For example, Dawn is 300..420 inclusive and Morning is 421..660. |
| `DataCollector.GetSeason` | src/data_collector.rs:81-86 | Months 3–5 give Spring, 6–8 Summer and 9–11 Autumn. Every other `u8` gives Winter, including 0 and 13. The variant carries the month. |
| `DataCollector.SeasonIsQuarter` | src/data_collector.rs:81-86 | On calendar months, the season agrees with an independent arithmetic reading: seasons are consecutive quarters of the year starting in December. |
| `DataCollector.Entry` | src/data_collector.rs:111-160 | Each of the 50 match arms, by position, pairs a provider description with a variant. No arm yields `Hotty`, `Coldy` or `Default`. |
| `DataCollector.DescriptionTable` | src/data_collector.rs:111-160 | The arms, first arm first, form a table of exactly 50 entries, none of which yields `Hotty`, `Coldy` or `Default`. |
| `DataCollector.Lookup` | src/data_collector.rs:110-161 | The arms are tried top to bottom. A result is always the variant of some entry whose description is the one looked up. |
| `DataCollector.LookupSpec` | src/data_collector.rs:110-161 | A first-match lookup in a table returns nothing exactly when no key matches. Otherwise it returns the value of the first entry whose key matches, as a `match` on string literals does. |
| `DataCollector.LookupFinds` | src/data_collector.rs:110-161 | When entry `j` is the first entry with a given key, the lookup returns that entry's value. |
| `DataCollector.TableKinds` | src/data_collector.rs:110-160 | No entry of the table yields `Hotty`, `Coldy` or `Default`. |
| `DataCollector.GetWeather` | src/data_collector.rs:110-161 | The classifier is total and passes the temperature through unchanged. It never produces `Hotty` or `Coldy`, although both variants are declared. |
| `DataCollector.WeatherIsTableLookup` | src/data_collector.rs:110-161 | A description outside the table gives `Default`, and only such a description does. A description inside the table gives the variant of its first entry. |
| `DataCollector.BlizzardIsStormy` | src/data_collector.rs:122 | "Blizzard" gives Stormy with the same temperature. |
| `DataCollector.BlowingSnowIsWindy` | src/data_collector.rs:121 | "Blowing snow" gives Windy. |
| `DataCollector.HeavySnowIsRainy` | src/data_collector.rs:144 | "Heavy snow" gives Rainy. |
| `DataCollector.LightSleetIsRainy` | src/data_collector.rs:137 | "Light sleet" gives Rainy. |
| `DataCollector.ThunderstormInVicinityIsRainy` | src/data_collector.rs:160 | The last entry mentions thunderstorms but gives Rainy, not Stormy. |
| `DataCollector.UnknownIsDefault` | src/data_collector.rs:161 | A description the provider never sends, "made-up-string", falls through to `Default` with the temperature unchanged. |
| `AudioServices.New` | src/audio_services.rs:45-54 | A new session holds a non-empty, paused sink, the stored state Paused, no start instant and no accumulated time, and it satisfies the invariant. |
| `AudioServices.Since` | src/audio_services.rs:113 | `start_time.elapsed()`, used here and at line 97, on a clock reading `now`: the duration that takes `start` to `now`, or 0 when the clock reads earlier than `start`. |
| `AudioServices.GetCurrentState` | src/audio_services.rs:70-78 | The reported state follows a fixed precedence. A paused sink means Paused. Otherwise an empty sink means Stopped. Otherwise the stored state is reported. Each result is stated as an if-and-only-if over the three signals. |
| `AudioServices.Play` | src/audio_services.rs:80-89 | When the sink is not paused, nothing changes. On a paused sink, play unpauses it, stores Playing, and keeps an existing start instant or else records `now`. Emptiness, volume and accumulated time are untouched. |
| `AudioServices.Pause` | src/audio_services.rs:92-100 | On a paused sink, nothing changes. Otherwise pause pauses the sink, stores Paused, clears the start instant, and adds `now - start` to the accumulated time. That is 0 when no start is recorded or the clock reads earlier than the start. |
| `AudioServices.GetVolume` | src/audio_services.rs:102-104 | Under the invariant, the volume read back is never negative. |
| `AudioServices.SetVolume` | src/audio_services.rs:106-108 | The resulting volume is `max(v, 0)`, so it is never negative. Nothing else changes. |
| `AudioServices.GetElapsedTime` | src/audio_services.rs:110-117 | The result is the accumulated time plus `now - start` while a start instant is recorded and the stored state is Playing. Otherwise it is the accumulated time alone. |
| `AudioServices.IsEnd` | src/audio_services.rs:138-140 | The session has ended only if the sink is empty. Under the invariant, it has ended exactly when the reported state is Stopped. |
| `AudioServices.Drain` | src/audio_services.rs:70-78 | When the sink plays out its queue, it becomes empty. Its paused flag and volume, the stored state, the start instant and the accumulated time are all kept. |
| `AudioServices.NewSession` | src/audio_services.rs:45-54 | After `new`, the invariant holds and the sink is not empty. The state is Paused, the session has not ended, elapsed time is 0, and the volume is 1.0. A first `play` makes the reported state Playing. |
| `AudioServices.InvPreserved` | src/audio_services.rs:52-53 | Play, pause, set_volume and the sink draining all preserve the invariant. The invariant has four parts: the stored state is never Stopped; a start instant is recorded iff the state is Playing; the sink is paused iff the state is Paused; the volume is not negative. Draining leaves the elapsed time unchanged. |
| `AudioServices.EndIsStopped` | src/audio_services.rs:138-140 | Under the invariant, `is_end` holds exactly when `get_current_state` reports Stopped. Playing is reported exactly while the stored state is Playing and the sink is not empty. |
| `AudioServices.PauseKeepsElapsed` | src/audio_services.rs:92-117 | At the same instant, the elapsed time is equal just before and just after a pause. |
| `AudioServices.PlayKeepsElapsed` | src/audio_services.rs:80-117 | At the same instant, the elapsed time is equal just before and just after a play. |
| `AudioServices.ElapsedMonotone` | src/audio_services.rs:110-117 | Elapsed time never decreases as the clock advances. |
| `AudioServices.ElapsedCountsAfterEnd` | src/audio_services.rs:110-117 | After the track has ended, the elapsed time still grows one tick per tick, because the stored state stays Playing. |
| `AudioServices.PlayPauseIdempotent` | src/audio_services.rs:80-100 | A second play, or a second pause, at any instant changes nothing. |
| `AudioServices.VolumeRoundTrip` | src/audio_services.rs:102-108 | `get_volume` after `set_volume(v)` reads `max(v, 0)`. Setting the same volume twice is the same as setting it once, and the reported state is unaffected. |
| `AudioServices.ElapsedIsPlayedTime` | src/audio_services.rs:80-117 | Take any clock-ordered trace, read at or after its last step. After it, the invariant holds, and the sink is paused exactly when the last play or pause was a pause, or there was none. The elapsed time equals the independently defined total length of the intervals from each play to the next pause, including time after the sink ran dry. |
| `AudioServices.PlayThenPause` | src/audio_services.rs:80-117 | Playing at 0 and pausing at 2 gives elapsed 2, and it is still 2 later. |
| `AudioServices.PausedGapNotCounted` | src/audio_services.rs:80-117 | Playing 0–1, pausing 1–2 and playing 2–3 gives elapsed 2. |
| `Database.Eq` | src/database.rs:11-15 | Track-header equality is implied by structural equality. It holds exactly when the two headers differ at most in path and vibes. |
| `Database.EqIsIdEquivalence` | src/database.rs:11-15 | Track-header equality holds iff the ids are equal. It is reflexive, symmetric and transitive, and it ignores path and vibes. |
| `Database.EqIgnoresPath` | src/database.rs:11-15 | Two structurally different headers with the same id compare equal. |
| `Database.Marks` | src/database.rs:379 | Mapping each name to `"?"` gives one `"?"` per name. |
| `Database.Join` | src/database.rs:379 | `join` of no parts is empty. Otherwise the result is as long as all parts plus one separator between each pair of neighbours, and it starts with the first part. |
| `Database.Placeholders` | src/database.rs:379 | The `IN` list for n names holds n `?`. It is empty for no names. Otherwise it is 2n−1 characters long with n−1 commas. |
| `Database.PlaceholderShape` | src/database.rs:379 | Joining n ≥ 1 question marks with commas gives a string of length 2n−1, with `?` at even positions and `,` at odd ones. |
| `Database.PlaceholderCounts` | src/database.rs:379 | The joined list holds n `?` and n−1 `,`. |
| `Database.Decimal` | src/database.rs:380 | `format!("{}")` of an unsigned integer is a non-empty string of decimal digits with no leading zero. |
| `Database.DecimalRoundTrip` | src/database.rs:380 | Parsing the printed number back gives the number. |
| `Database.HavingClause` | src/database.rs:375-380 | The text after the `IN` list opens with the fixed text from `)` to `= `, ends with the fixed trailer, and holds no `?`. |
| `Database.NoMarkInFixedText` | src/database.rs:370-378 | The fixed SQL text contains no `?`. |
| `Database.QueryText` | src/database.rs:369-381 | The query text for n names contains exactly n `?` placeholders, one per bind. |
| `Database.QueryInList` | src/database.rs:370-379 | In the query text, the `IN` list `?,?,…,?` of length 2n−1 follows the fixed head directly. |
| `Database.QueryHavingClause` | src/database.rs:375-380 | Everything after the `IN` list is the `HAVING` clause for the number of names. |
| `Database.HavingCountReadsBack` | src/database.rs:377-380 | The `HAVING COUNT(DISTINCT vb.name)` constant is all digits and reads back as the number of names. |
| `Database.TracksByVibesPlan` | src/database.rs:362-386 | With no names, no query is built. Otherwise the binds are exactly the names, in input order, one per name. The query has as many `?` placeholders as there are binds. |

## Left out

- The HTTP weather fetch and JSON parsing of `get_weather` are left out
  (`src/data_collector.rs:93-108`), and so is reading the local clock for
  `get_time` and `get_season`. They are I/O. The classifiers take the
  description, temperature, hour and month as arguments.
- On a failed fetch or parse, `get_weather` panics through `expect`
  (`src/data_collector.rs:100-107`). The model covers only the
  classification of a successful reading.
- `DataCollector.GetTime` works on reals, not f32. f32 rounding of
  `minute / 60.0` stays strictly below 1, so it never moves a clock reading
  across a whole-hour boundary. NaN (which would give Night) is not modelled.
- `Weather` is modelled as a kind plus a temperature. This is the same
  information as the Rust enum whose eight variants each carry a temperature.
- Device, file and decoder acquisition in `Audio::new` are left out, and so
  are `get_metadata` and the `println!` debug lines. They are foreign calls
  and console output. `New` is the state after a successful `new`.
- `New` uses a volume of 1.0. That is rodio's default for a new sink, which
  the Rust code does not set itself.
- `Instant` and `Duration` are left out. The model uses a `nat` clock, and
  `Instant::elapsed` becomes a subtraction that saturates at zero.
- The f32 volume is left out. The model uses a real, and NaN is not
  modelled.
- The commented-out `set_elapsed_time` (`src/audio_services.rs:119-136`) is
  left out, because it is not compiled.
- SQL execution and every other `Mp3Database` method are left out. The
  conjunctive-match meaning of the query lives in SQLite. So does the
  per-track `get_vibes_for_track` call after the query.
- `src/main.rs` (HTTP routing) is not part of this model.
- `src/audio_recommender.rs` is not part of this model: its only operation
  is `todo!()`.
