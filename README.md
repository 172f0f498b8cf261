# Stroke self-check app: verified model of its decision logic

The app checks users for stroke signs. It records a face video and a voice sample for two AI models, then runs a short survey that covers gaze, arm weakness and orientation. It scores the answers, recommends hospitals and keeps a daily health diary. This project models the parts of the Spring backend and the React Native frontend that decide something:

- **Survey scoring.** It covers the age in completed years, the orientation flag, the five-finding total, the symptom sentence, the in-place update of the diagnosis record and the percentage sent back. It also covers the upload extension check and the AI step that stores a new diagnosis.
- **Hospitals.** It covers the nearest-hospital search over the radius ladder 10/30/50/70/100 km. The map is keyed by id and the first-seen row wins. The search stops at six, then sorts and keeps six. It also covers the search-keyword guard, the map markers and the marker modal.
- **Opening hours.** `Hospital.isOpenNow` has an emergency override, trims the slot and turns parse failures into a typed error. The embedded `OpeningHour.isOpenNow` does neither, so its exceptions propagate. Times are minutes since midnight. Today's weekday and the current minute are parameters.
- **Health diary.** It covers the five answer tables and their `ofOption` lookups, and the score `max(0, 100 + sum of impacts)`. It covers the one-diary-per-day guard of `createDiary` and the owner check of `getDiary`. It also covers the month window of the calendar and the five newest diaries of the graph.
- **S3 keys.** It covers the extension taken from the last '.' and the `dir/userId/uuid.ext` object key.
- **Frontend helpers.** It covers the Redux auth slice as a state machine, the sign-up form checks, the distinct-pair picker with its two random draws as inputs, and the 1-5 status mapping of the health-result screen.

Java exceptions become `Err` values of `Errors.Result`. A `GeneralException` carries its `ErrorCode`, and an unchecked exception is `Raised(...)`. `null` and an empty `Optional` are `None`. Repository queries, the clock, random draws and outside services are parameters. An object that the code updates in place is a class: the diagnosis entity, the diary store and the auth slice. Each of its methods is specified against a pure function of the old state.

## Model

| member | source | states |
|---|---|---|
| DiagnosisCommand.AgeCountsAnniversaries | Backend/src/main/java/gradude/springVision/domain/diagnosis/service/DiagnosisCommandService.java:201-207 | The computed age is the unique n such that the n-th birthday anniversary is on or before today and the (n+1)-th is after it. |
| DiagnosisCommand.AgeOnBirthday | Backend/src/main/java/gradude/springVision/domain/diagnosis/service/DiagnosisCommandService.java:201-207 | Born 1990-06-15, the age is 34 on 2025-06-14 and 35 on 2025-06-15. |
| DiagnosisCommand.Orientation | Backend/src/main/java/gradude/springVision/domain/diagnosis/service/DiagnosisCommandService.java:210-214 | The flag is 0 or 1. It is 1 exactly when both the month guess and the age guess are wrong. |
| DiagnosisCommand.TotalScoreCountsFindings | Backend/src/main/java/gradude/springVision/domain/diagnosis/service/DiagnosisCommandService.java:216-217 | With 0/1 survey answers, the total is the number of present findings among orientation, gaze, arm, face and speech, so it lies in [0, 5]. |
| DiagnosisCommand.Mark | Backend/src/main/java/gradude/springVision/domain/diagnosis/service/DiagnosisCommandService.java:222-227 | A slot word reads "있음" exactly when its finding is present, and "없음" otherwise. |
| DiagnosisCommand.NarrativeInjective | Backend/src/main/java/gradude/springVision/domain/diagnosis/service/DiagnosisCommandService.java:220-228 | The symptom sentence determines all six findings: two different finding sets never give the same sentence. |
| DiagnosisCommand.SentenceInjective | Backend/src/main/java/gradude/springVision/domain/diagnosis/service/DiagnosisCommandService.java:220-228 | A sentence of fixed labels each followed by a slot word determines its flags. |
| DiagnosisCommand.OrientationMatchesNarrative | Backend/src/main/java/gradude/springVision/domain/diagnosis/service/DiagnosisCommandService.java:210-228 | The orientation flag is 1 exactly when the sentence reports both the time and the age misperception. |
| DiagnosisCommand.AnyExtensionMatches | Backend/src/main/java/gradude/springVision/domain/diagnosis/service/DiagnosisCommandService.java:109-110 | True exactly when the lower-cased name ends with "." followed by some allowed extension. |
| DiagnosisCommand.ValidateExtension | Backend/src/main/java/gradude/springVision/domain/diagnosis/service/DiagnosisCommandService.java:106-113 | Accepts exactly a non-null name whose lower-cased form ends with "." plus an allowed extension. Anything else is FILE_EXTENSION_NOT_SUPPORTED. |
| DiagnosisCommand.ExtensionIgnoresCase | Backend/src/main/java/gradude/springVision/domain/diagnosis/service/DiagnosisCommandService.java:110 | Upper and lower case give the same verdict. |
| DiagnosisCommand.AllowedNameAccepted | Backend/src/main/java/gradude/springVision/domain/diagnosis/service/DiagnosisCommandService.java:106-113 | Any stem followed by "." and a listed extension (mp4, mov; wav, pcm, m4a) is accepted. |
| DiagnosisCommand.DotlessNameRefused | Backend/src/main/java/gradude/springVision/domain/diagnosis/service/DiagnosisCommandService.java:106-113 | A name without '.' is refused. |
| DiagnosisCommand.AiDiagnosis | Backend/src/main/java/gradude/springVision/domain/diagnosis/service/DiagnosisCommandService.java:67-101 | A missing user is USER_NOT_FOUND. A bad video or audio extension is FILE_EXTENSION_NOT_SUPPORTED. A stream that cannot be read during either upload is FILE_UPLOAD_FAILED. A failed AI-server call raises ResponseStatusException. A probability outside [0, 1] fails the entity's bounds check when the diagnosis is saved. The call succeeds exactly when none of these happens. Every failure saves nothing. On success a fresh diagnosis holds both predictions (1 means a finding) and both probabilities, its survey fields are 0, and the response repeats the four values. |
| DiagnosisCommand.ProbabilitiesAccepted | Backend/src/main/java/gradude/springVision/domain/diagnosis/entity/Diagnosis.java:26-35 | A new diagnosis whose two probabilities lie in [0, 1] always passes the bounds check made when it is saved. |
| DiagnosisCommand.RecommendedOpen | Backend/src/main/java/gradude/springVision/domain/diagnosis/service/DiagnosisCommandService.java:255-256 | An emergency room is open. Otherwise a hospital without opening hours is closed, and one with hours follows Hospital.isOpenNow. It never raises the null-pointer exception. |
| DiagnosisCommand.SelfDiagnosis | Backend/src/main/java/gradude/springVision/domain/diagnosis/service/DiagnosisCommandService.java:191-267 | No latest diagnosis gives DIAGNOSIS_NOT_FOUND before anything else. A missing user gives USER_NOT_FOUND with the record unchanged. Otherwise the age, orientation and total are computed. If the updated record breaks the entity's declared bounds (a gaze or arm answer outside [0, 1], a total above 5), writing it raises ConstraintViolationException and the record stays as it was. Otherwise the record gets the survey values, the computed orientation and the total, its AI part is untouched, and the response is `from` of the updated record with the LLM's reading of the symptom sentence. |
| DiagnosisCommand.SurveyKeepsBounds | Backend/src/main/java/gradude/springVision/domain/diagnosis/entity/Diagnosis.java:26-47 | A record within its declared bounds stays within them after a survey with 0/1 answers. |
| DiagnosisCommand.ModalClosesEmergencyRoom | Backend/src/main/java/gradude/springVision/domain/hospital/service/HospitalQueryService.java:105-108 | The modal shows an emergency room without opening hours as closed, while the recommendation shows it as open (see Findings). |
| DiagnosisCommand.CorrectedModalAgrees | Backend/src/main/java/gradude/springVision/domain/diagnosis/service/DiagnosisCommandService.java:255-256 | The corrected modal's open flag is the recommendation's flag for every hospital, with the same error where there is one. |
| DiagnosisEntity.Updated | Backend/src/main/java/gradude/springVision/domain/diagnosis/entity/Diagnosis.java:53-58 | The update sets gaze and arm from the request and orientation and totalScore from the arguments. The id, user, both predictions and both probabilities are unchanged. |
| DiagnosisEntity.Diagnosis.UpdateDiagnosis | Backend/src/main/java/gradude/springVision/domain/diagnosis/entity/Diagnosis.java:53-58 | The record's new state is `Updated` of its old state. |
| DiagnosisEntity.PartsDetermineState | Backend/src/main/java/gradude/springVision/domain/diagnosis/entity/Diagnosis.java:16-51 | The AI part and the survey part together determine the whole record, so `Updated` leaves nothing else to change. |
| DiagnosisEntity.UpdateIdempotent | Backend/src/main/java/gradude/springVision/domain/diagnosis/entity/Diagnosis.java:53-58 | Updating twice with the same arguments equals updating once. |
| DiagnosisEntity.UpdateForgetsSurvey | Backend/src/main/java/gradude/springVision/domain/diagnosis/entity/Diagnosis.java:53-58 | The result does not depend on the previous survey answers. |
| DiagnosisEntity.UpdateKeepsBounds | Backend/src/main/java/gradude/springVision/domain/diagnosis/entity/Diagnosis.java:37-47 | Values within the declared [0,1] and [0,5] bounds keep the record within its bounds. |
| DiagnosisResponse.From | Backend/src/main/java/gradude/springVision/domain/diagnosis/dto/response/DiagnosisResponseDTO.java:25-37 | The six survey fields, the LLM result and the hospital list are copied unchanged. The percentage is a multiple of 20 that reads back as the total score. |
| DiagnosisResponse.PercentageScale | Backend/src/main/java/gradude/springVision/domain/diagnosis/dto/response/DiagnosisResponseDTO.java:33 | For a record in bounds the percentage lies in [0,100]. It is 100 exactly for a score of 5 and 0 exactly for 0. |
| DiagnosisResponse.PercentageMonotone | Backend/src/main/java/gradude/springVision/domain/diagnosis/dto/response/DiagnosisResponseDTO.java:33 | A higher score never gives a lower percentage. |
| HospitalQuery.GetHospitalMarkers | Backend/src/main/java/gradude/springVision/domain/hospital/service/HospitalQueryService.java:32-43 | One marker per row, in row order, with id, latitude and longitude copied. |
| HospitalQuery.Merge | Backend/src/main/java/gradude/springVision/domain/hospital/service/HospitalQueryService.java:56-66 | Merging rows keeps every entry already present and keeps every entry under its own id. |
| HospitalQuery.MergeFirstSeen | Backend/src/main/java/gradude/springVision/domain/hospital/service/HospitalQueryService.java:56-66 | After a merge, an id is present exactly when it was present before or occurs in the rows. A new id holds its first row. |
| HospitalQuery.FirstWithIdSnoc | Backend/src/main/java/gradude/springVision/domain/hospital/service/HospitalQueryService.java:58 | The first row with an id is not displaced by later rows. |
| HospitalQuery.MergeRows | Backend/src/main/java/gradude/springVision/domain/hospital/service/HospitalQueryService.java:56-66 | The loop that skips known ids computes `Merge`. |
| HospitalQuery.Accumulated | Backend/src/main/java/gradude/springVision/domain/hospital/service/HospitalQueryService.java:51-66 | The map after the first k radius steps is keyed by id. |
| HospitalQuery.StepsFrom | Backend/src/main/java/gradude/springVision/domain/hospital/service/HospitalQueryService.java:53-69 | The number of steps run is the first step count at which the map holds six or more, or all five steps. Every earlier count left it short. |
| HospitalQuery.StepsQueried | Backend/src/main/java/gradude/springVision/domain/hospital/service/HospitalQueryService.java:53-69 | At least one and at most five radii are queried. |
| HospitalQuery.CollectNearby | Backend/src/main/java/gradude/springVision/domain/hospital/service/HospitalQueryService.java:49-69 | The loop queries the radii 10, 30, 50, 70, 100 in order and stops right after the first step that reaches six entries. The map it leaves is the specified `Collected`. |
| HospitalQuery.StepsQueriedIs | Backend/src/main/java/gradude/springVision/domain/hospital/service/HospitalQueryService.java:68 | A step count where the map is full, after counts where it was short, is the number of radii queried. |
| HospitalQuery.NothingFound | Backend/src/main/java/gradude/springVision/domain/hospital/service/HospitalQueryService.java:49-74 | When no radius finds anything, all five radii are queried and the map stays empty, which gives an empty list and no error. |
| HospitalQuery.AccumulatedEmpty | Backend/src/main/java/gradude/springVision/domain/hospital/service/HospitalQueryService.java:51-66 | Empty queries leave the map empty at every step. |
| HospitalQuery.GetNearestHospitals | Backend/src/main/java/gradude/springVision/domain/hospital/service/HospitalQueryService.java:48-75 | The result is sorted by distance and holds min(6, map size) entries with distinct ids. Each entry is the map's entry for its id. Every entry left out is at least as far as every entry kept. |
| HospitalQuery.NearestKept | Backend/src/main/java/gradude/springVision/domain/hospital/service/HospitalQueryService.java:71-74 | After sorting and limiting to six, nothing cut off is nearer than anything kept. |
| HospitalQuery.SelectedFromMap | Backend/src/main/java/gradude/springVision/domain/hospital/service/HospitalQueryService.java:71-74 | A prefix of the sorted map values holds map entries with distinct ids. |
| HospitalQuery.ValuesOf | Backend/src/main/java/gradude/springVision/domain/hospital/service/HospitalQueryService.java:71 | `values()` lists every entry of the map exactly once. |
| HospitalQuery.SearchHospital | Backend/src/main/java/gradude/springVision/domain/hospital/service/HospitalQueryService.java:81-94 | A null or blank keyword, or one shorter than two UTF-16 code units, is HOSPITAL_INVALID_SEARCH, and only such a keyword is. Otherwise there is one result per hospital found, in order, with its distance. |
| HospitalQuery.RejectedBeforeQuery | Backend/src/main/java/gradude/springVision/domain/hospital/service/HospitalQueryService.java:82-86 | A rejected keyword gives the same error whatever the repository would return, because the query is never made. |
| HospitalQuery.KeywordLength | Backend/src/main/java/gradude/springVision/domain/hospital/service/HospitalQueryService.java:82 | One character of the Basic Multilingual Plane is refused. A single non-blank character outside it is two UTF-16 code units long and passes. Two characters starting with a non-blank one pass. |
| Text.Utf16Length | Backend/src/main/java/gradude/springVision/domain/hospital/service/HospitalQueryService.java:82 | `length()` counts UTF-16 code units: between one and two per character, and exactly one per character when every character lies in the Basic Multilingual Plane. |
| Text.Utf16LengthOfChar | Backend/src/main/java/gradude/springVision/domain/hospital/service/HospitalQueryService.java:82 | A character inside the Basic Multilingual Plane has length 1. One outside it has length 2 (a surrogate pair). |
| HospitalQuery.GetHospitalModal | Backend/src/main/java/gradude/springVision/domain/hospital/service/HospitalQueryService.java:99-111 | An unknown id, and only that, is HOSPITAL_NOT_FOUND. Without opening hours the flag is false. With hours, it is `isOpenNow`'s result, whose only possible error is INVALID_HOSPITAL_OPENING_HOURS. |
| HospitalQuery.GetHospitalModalCorrected | Backend/src/main/java/gradude/springVision/domain/hospital/service/HospitalQueryService.java:99-111 | As the modal, except that an emergency room is always open. For every other hospital it equals the modal as written. |
| Hospital.TrimmedSlotRange | Backend/src/main/java/gradude/springVision/domain/hospital/entity/Hospital.java:67-71 | A slot without '~' has no range. |
| Hospital.IsOpenNow | Backend/src/main/java/gradude/springVision/domain/hospital/entity/Hospital.java:52-79 | An emergency room is open. Missing opening hours raise the null-pointer exception. A null slot is closed. A malformed slot is INVALID_HOSPITAL_OPENING_HOURS. Otherwise the hospital is open iff start <= now < end, so an open hospital's slot has start < end. |
| Hospital.PaddedTimes | Backend/src/main/java/gradude/springVision/domain/hospital/entity/Hospital.java:67-71 | Two printed times with any padding that `trim` removes read back as those times. |
| Hospital.FormattedSlot | Backend/src/main/java/gradude/springVision/domain/hospital/entity/Hospital.java:67-71 | "HH:MM~HH:MM" reads back as its two times. |
| Hospital.TrimFormatted | Backend/src/main/java/gradude/springVision/domain/hospital/entity/Hospital.java:70-71 | `trim` removes exactly the padding around a printed time. |
| Hospital.HalfOpen | Backend/src/main/java/gradude/springVision/domain/hospital/entity/Hospital.java:75 | Open at exactly the start minute and closed at exactly the end minute. |
| Hospital.PaddedSlot | Backend/src/main/java/gradude/springVision/domain/hospital/entity/Hospital.java:68-71 | " 09:00 ~ 18:00 " reads like "09:00~18:00". |
| Hospital.OnlyFirstTwoParts | Backend/src/main/java/gradude/springVision/domain/hospital/entity/Hospital.java:67-71 | Text after a second '~' changes nothing. |
| OpeningHour.SlotsDetermineSchedule | Backend/src/main/java/gradude/springVision/domain/hospital/entity/OpeningHour.java:39-47 | Each weekday selects its own field: schedules that agree on every weekday are equal. |
| OpeningHour.ParseLocalTime | Backend/src/main/java/gradude/springVision/domain/hospital/entity/OpeningHour.java:57-58 | A parsed time has the "HH:MM" shape. |
| OpeningHour.FormatLocalTime | Backend/src/main/java/gradude/springVision/domain/hospital/entity/OpeningHour.java:57-58 | A printed time has five characters: two digits, ':' and two digits. |
| OpeningHour.ParseFormat | Backend/src/main/java/gradude/springVision/domain/hospital/entity/OpeningHour.java:57-58 | Parsing a printed time gives it back. |
| OpeningHour.FormatParse | Backend/src/main/java/gradude/springVision/domain/hospital/entity/OpeningHour.java:57-58 | Printing a parsed time gives back the text, so only the canonical spelling parses. |
| OpeningHour.SlotRange | Backend/src/main/java/gradude/springVision/domain/hospital/entity/OpeningHour.java:53-58 | The only failures are ArrayIndexOutOfBounds (a missing part) and DateTimeParse (a bad time). A slot without '~' fails. |
| OpeningHour.IsOpenNow | Backend/src/main/java/gradude/springVision/domain/hospital/entity/OpeningHour.java:37-61 | A null slot is closed. A malformed slot propagates its exception. Otherwise the result is open iff start <= now < end. There is no emergency override. |
| OpeningHour.FormattedSlotRange | Backend/src/main/java/gradude/springVision/domain/hospital/entity/OpeningHour.java:53-58 | "HH:MM~HH:MM" reads back as its two times. |
| OpeningHour.HalfOpen | Backend/src/main/java/gradude/springVision/domain/hospital/entity/OpeningHour.java:60 | Open at exactly the start minute and closed at exactly the end minute. |
| OpeningHour.PaddedSlotFails | Backend/src/main/java/gradude/springVision/domain/hospital/entity/OpeningHour.java:53-58 | Without trimming, a padded slot is a DateTimeParse failure. |
| OpeningHour.OnlyFirstTwoParts | Backend/src/main/java/gradude/springVision/domain/hospital/entity/OpeningHour.java:53-58 | Text after a second '~' is never read. |
| Drinking.OfOption | Backend/src/main/java/gradude/springVision/domain/diary/entity/Drinking.java:24-29 | Options 1-4 give the constant with that option number. Anything else is INVALID_DIARY_INPUT. |
| Drinking.OfOptionRoundTrip | Backend/src/main/java/gradude/springVision/domain/diary/entity/Drinking.java:11-29 | `ofOption(c.getOption()) == c` for every constant. |
| Drinking.OptionInjective | Backend/src/main/java/gradude/springVision/domain/diary/entity/Drinking.java:11-14 | No two constants share an option number. |
| Drinking.ImpactDecreasing | Backend/src/main/java/gradude/springVision/domain/diary/entity/Drinking.java:11-14 | A higher option has a strictly lower impact. |
| Drinking.OfOptionMonotone | Backend/src/main/java/gradude/springVision/domain/diary/entity/Drinking.java:11-29 | The impact looked up for a higher option is never higher. |
| Smoking.OfOption | Backend/src/main/java/gradude/springVision/domain/diary/entity/Smoking.java:24-29 | Options 1-4 give the constant with that option number. Anything else is INVALID_DIARY_INPUT. |
| Smoking.OfOptionRoundTrip | Backend/src/main/java/gradude/springVision/domain/diary/entity/Smoking.java:11-29 | `ofOption(c.getOption()) == c` for every constant. |
| Smoking.OptionInjective | Backend/src/main/java/gradude/springVision/domain/diary/entity/Smoking.java:11-14 | No two constants share an option number. |
| Smoking.ImpactDecreasing | Backend/src/main/java/gradude/springVision/domain/diary/entity/Smoking.java:11-14 | A higher option has a strictly lower impact. |
| Smoking.OfOptionMonotone | Backend/src/main/java/gradude/springVision/domain/diary/entity/Smoking.java:11-29 | The impact looked up for a higher option is never higher. |
| Exercise.OfOption | Backend/src/main/java/gradude/springVision/domain/diary/entity/Exercise.java:23-28 | Options 1-3 give the constant with that option number. Anything else is INVALID_DIARY_INPUT. |
| Exercise.OfOptionRoundTrip | Backend/src/main/java/gradude/springVision/domain/diary/entity/Exercise.java:11-28 | `ofOption(c.getOption()) == c` for every constant. |
| Exercise.OptionInjective | Backend/src/main/java/gradude/springVision/domain/diary/entity/Exercise.java:11-13 | No two constants share an option number. |
| Exercise.ImpactDecreasing | Backend/src/main/java/gradude/springVision/domain/diary/entity/Exercise.java:11-13 | A higher option has a strictly lower impact. |
| Exercise.OfOptionMonotone | Backend/src/main/java/gradude/springVision/domain/diary/entity/Exercise.java:11-28 | The impact looked up for a higher option is never higher. |
| Diet.OfOption | Backend/src/main/java/gradude/springVision/domain/diary/entity/Diet.java:22-27 | Options 1-2 give the constant with that option number. Anything else is INVALID_DIARY_INPUT. |
| Diet.OfOptionRoundTrip | Backend/src/main/java/gradude/springVision/domain/diary/entity/Diet.java:11-27 | `ofOption(c.getOption()) == c` for both constants. |
| Diet.OptionInjective | Backend/src/main/java/gradude/springVision/domain/diary/entity/Diet.java:11-12 | The two constants have different option numbers. |
| Diet.ImpactDecreasing | Backend/src/main/java/gradude/springVision/domain/diary/entity/Diet.java:11-12 | The higher option has a strictly lower impact. |
| Diet.OfOptionMonotone | Backend/src/main/java/gradude/springVision/domain/diary/entity/Diet.java:11-27 | The impact looked up for a higher option is never higher. |
| Sleep.OfOption | Backend/src/main/java/gradude/springVision/domain/diary/entity/Sleep.java:23-28 | Options 1-3 give the constant with that option number. Anything else is INVALID_DIARY_INPUT. |
| Sleep.OfOptionRoundTrip | Backend/src/main/java/gradude/springVision/domain/diary/entity/Sleep.java:11-28 | `ofOption(c.getOption()) == c` for every constant. |
| Sleep.OptionInjective | Backend/src/main/java/gradude/springVision/domain/diary/entity/Sleep.java:11-13 | No two constants share an option number. |
| Sleep.ImpactNonIncreasing | Backend/src/main/java/gradude/springVision/domain/diary/entity/Sleep.java:11-13 | A higher option never has a higher impact. |
| Sleep.ShortAndLongSleepEqual | Backend/src/main/java/gradude/springVision/domain/diary/entity/Sleep.java:12-13 | Options 2 and 3 cost the same, so the order is not strict. |
| Sleep.OfOptionMonotone | Backend/src/main/java/gradude/springVision/domain/diary/entity/Sleep.java:11-28 | The impact looked up for a higher option is never higher. |
| DiaryCommand.ImpactSum | Backend/src/main/java/gradude/springVision/domain/diary/service/DiaryCommandService.java:52-58 | The five impacts of valid answers add up to a value in [-97, 0]. |
| DiaryCommand.HealthScore | Backend/src/main/java/gradude/springVision/domain/diary/service/DiaryCommandService.java:51-61 | An invalid option in any category, and only that, is INVALID_DIARY_INPUT. Otherwise the score is 100 plus the impact sum, which lies in [3, 100], so the clamp at 0 never applies. |
| DiaryCommand.HealthScoreBest | Backend/src/main/java/gradude/springVision/domain/diary/service/DiaryCommandService.java:51-61 | Option 1 everywhere scores exactly 100. |
| DiaryCommand.HealthScoreWorst | Backend/src/main/java/gradude/springVision/domain/diary/service/DiaryCommandService.java:51-61 | The worst option everywhere scores exactly 3. |
| DiaryCommand.ImpactsOf | Backend/src/main/java/gradude/springVision/domain/diary/service/DiaryCommandService.java:52-58 | Answers naming given constants are valid, and their impact sum is the sum of those constants' impacts. |
| DiaryCommand.ImpactSumMonotone | Backend/src/main/java/gradude/springVision/domain/diary/service/DiaryCommandService.java:52-58 | Raising option numbers never raises the impact sum. |
| DiaryCommand.HealthScoreMonotone | Backend/src/main/java/gradude/springVision/domain/diary/service/DiaryCommandService.java:52-60 | Raising any option number never raises the score. |
| DiaryCommand.DiaryStore.CreateDiary | Backend/src/main/java/gradude/springVision/domain/diary/service/DiaryCommandService.java:30-49 | A missing user is USER_NOT_FOUND. A diary of that user on the same day is DIARY_ALREADY_EXISTS, before scoring. Invalid answers are INVALID_DIARY_INPUT. Every error leaves the store unchanged. Otherwise the scored diary is appended. The store keeps at most one diary per user and day. |
| DiaryCommand.SavingKeepsOnePerDay | Backend/src/main/java/gradude/springVision/domain/diary/service/DiaryCommandService.java:35-46 | Appending a diary whose day window holds none of its user's diaries keeps one diary per user and day. |
| DiaryCommand.SecondDiaryRefused | Backend/src/main/java/gradude/springVision/domain/diary/service/DiaryCommandService.java:35-40 | A diary already saved today makes the existence test fire. |
| Calendar.DaysInMonth | Backend/src/main/java/gradude/springVision/domain/diary/service/DiaryQueryService.java:45 | A month has 28 to 31 days. It has 29 exactly for February of a leap year. |
| Calendar.DayWindow | Backend/src/main/java/gradude/springVision/domain/diary/service/DiaryCommandService.java:35-38 | From the start of the day to `LocalTime.MAX`, both ends included, the window holds exactly that day's instants. |
| Calendar.InstantOrder | Backend/src/main/java/gradude/springVision/domain/diary/service/DiaryQueryService.java:57 | The numeric instant orders valid date-times as `compareTo` does. |
| DiaryQuery.GetDiary | Backend/src/main/java/gradude/springVision/domain/diary/service/DiaryQueryService.java:27-36 | An unknown id is DIARY_NOT_FOUND. Another user's diary is DIARY_ACCESS_DENIED. The caller's own diary is returned. Each holds exactly in its case. |
| DiaryQuery.CalendarWindow | Backend/src/main/java/gradude/springVision/domain/diary/service/DiaryQueryService.java:42-45 | A month outside 1-12 or a year outside `YearMonth`'s range raises DateTimeException. Otherwise the window runs from 00:00 on day 1 to the last nanosecond of the month's last day. |
| DiaryQuery.CalendarWindowIsMonth | Backend/src/main/java/gradude/springVision/domain/diary/service/DiaryQueryService.java:42-45 | A valid instant is inside the window exactly when it lies in that year and month. |
| DiaryQuery.FebruaryWindow | Backend/src/main/java/gradude/springVision/domain/diary/service/DiaryQueryService.java:45 | February ends on the 29th in 2024 and 2000, and on the 28th in 2025 and 1900. |
| DiaryQuery.InWindow | Backend/src/main/java/gradude/springVision/domain/diary/service/DiaryQueryService.java:47 | Exactly the user's diaries created inside the window are found. |
| DiaryQuery.CalendarEntries | Backend/src/main/java/gradude/springVision/domain/diary/service/DiaryQueryService.java:47-49 | One entry per diary found, in order, with its date and id. |
| DiaryQuery.GetDiaryCalendar | Backend/src/main/java/gradude/springVision/domain/diary/service/DiaryQueryService.java:41-50 | It fails exactly when the month is out of range. Every entry is a diary of the user in that month, and every such diary has an entry. |
| DiaryQuery.GraphPoints | Backend/src/main/java/gradude/springVision/domain/diary/service/DiaryQueryService.java:57-59 | One point per diary, in order, with its date and score. |
| DiaryQuery.Top5Newest | Backend/src/main/java/gradude/springVision/domain/diary/service/DiaryQueryService.java:57 | The result holds at most 5 of the user's diaries, newest first. It holds min(5, number of the user's diaries). Nothing left out is newer than anything kept. |
| DiaryQuery.GetDiaryGraph | Backend/src/main/java/gradude/springVision/domain/diary/service/DiaryQueryService.java:55-60 | The points are the dates and scores of `Top5Newest`: the user's min(5, count) newest diaries, newest first, with nothing newer left out. |
| DiaryQuery.GraphNewestFirst | Backend/src/main/java/gradude/springVision/domain/diary/service/DiaryQueryService.java:57 | The graph's diaries are in descending creation order. |
| S3Provider.LastIndexOf | Backend/src/main/java/gradude/springVision/global/util/S3Provider.java:36 | The result is the last position of the character, or -1 exactly when it does not occur. |
| S3Provider.Extension | Backend/src/main/java/gradude/springVision/global/util/S3Provider.java:31-37 | A null name or one without '.' gives "". Otherwise the extension is a suffix of the name that starts with its only '.'. |
| S3Provider.StemAndExtension | Backend/src/main/java/gradude/springVision/global/util/S3Provider.java:35-36 | For stem + "." + ext with no '.' in ext, the extension is "." + ext, whatever dots the stem holds. |
| S3Provider.ObjectKeyParts | Backend/src/main/java/gradude/springVision/global/util/S3Provider.java:42 | Split on '/', the key gives back the directory, the decimal user id (which reads back as the id) and uuid + extension. |
| S3Provider.UploadFile | Backend/src/main/java/gradude/springVision/global/util/S3Provider.java:30-55 | A stream failure, and only that, is FILE_UPLOAD_FAILED. Otherwise the result is the URL of the key dir/userId/uuid+extension. |
| Text.Strip | Backend/src/main/java/gradude/springVision/domain/hospital/entity/Hospital.java:70-71 | The result is empty exactly when every character is stripped, and otherwise neither starts nor ends with a stripped character. |
| Text.StripPadded | Backend/src/main/java/gradude/springVision/domain/hospital/entity/Hospital.java:70-71 | Stripping removes exactly the padding around a text. |
| Text.JavaSplit | Backend/src/main/java/gradude/springVision/domain/hospital/entity/Hospital.java:67 | `String.split` drops trailing empty strings. Text without the separator gives itself. |
| Text.JoinSplitAll | Backend/src/main/java/gradude/springVision/domain/hospital/entity/Hospital.java:67 | Joining the pieces with the separator gives the text back. |
| Text.JavaSplitLeadingPair | Backend/src/main/java/gradude/springVision/domain/hospital/entity/Hospital.java:67-71 | "a~b..." with non-empty b splits into a and b first. |
| Text.ToLower | Backend/src/main/java/gradude/springVision/domain/diagnosis/service/DiagnosisCommandService.java:110 | ASCII capitals become small letters. Every other character is kept, and so is the length. |
| Text.ToLowerIdempotent | Backend/src/main/java/gradude/springVision/domain/diagnosis/service/DiagnosisCommandService.java:110 | Lower-casing twice is lower-casing once. |
| Text.LongToDecimalValue | Backend/src/main/java/gradude/springVision/global/util/S3Provider.java:42 | The decimal form of a long is digits with an optional leading '-', and reads back as the number. |
| Seqs.FindFirst | Backend/src/main/java/gradude/springVision/domain/diary/entity/Drinking.java:25-28 | It returns the first element that satisfies the filter: no earlier element satisfies it. It reports none exactly when no element does. |
| Seqs.SortBy | Backend/src/main/java/gradude/springVision/domain/hospital/service/HospitalQueryService.java:72 | The result is sorted by the key and is a permutation of the input. |
| Seqs.Insert | Backend/src/main/java/gradude/springVision/domain/hospital/service/HospitalQueryService.java:72 | Inserting into a sorted sequence keeps it sorted and adds exactly that element. |
| Seqs.Limit | Backend/src/main/java/gradude/springVision/domain/hospital/service/HospitalQueryService.java:73 | `limit(n)` is the prefix of length min(n, size). |
| Seqs.LimitKeepsSmallest | Backend/src/main/java/gradude/springVision/domain/hospital/service/HospitalQueryService.java:71-74 | On a sorted sequence, what `limit` cuts off is no smaller than anything it keeps. |
| Seqs.PermutationDistinct | Backend/src/main/java/gradude/springVision/domain/hospital/service/HospitalQueryService.java:71-72 | Sorting a list without repeats gives a list without repeats. |
| AuthSlice.ActionsKeepOtherFields | Frontend/src/store/slices/authSlice.ts:25-52 | The tokens change only by setTokens, clearTokens and a reset. The pre-sign-up profile changes only by its setter, its clearer and a reset. The completion flag changes only by its setter and a reset. |
| AuthSlice.SetTokensStores | Frontend/src/store/slices/authSlice.ts:34-37 | setTokens stores both tokens of the payload and leaves the profile and the flag unchanged. |
| AuthSlice.ClearTokensIdempotent | Frontend/src/store/slices/authSlice.ts:39-42 | clearTokens empties both tokens, and applying it twice equals applying it once. |
| AuthSlice.ResetFromAnywhere | Frontend/src/store/slices/authSlice.ts:50-52 | A reset gives the initial state (all null, not complete) from any state, after any history. |
| AuthSlice.ReduceAllSnoc | Frontend/src/store/slices/authSlice.ts:23-53 | Dispatching one more action applies the reducer once more. |
| AuthSlice.TokensFollowLastTokenAction | Frontend/src/store/slices/authSlice.ts:34-52 | After any sequence of actions, the tokens are those left by the last setTokens, clearTokens or reset. Without such an action they are the starting tokens. |
| AuthSlice.AuthSlice.constructor | Frontend/src/store/slices/authSlice.ts:13-18 | A new store holds the initial state. |
| AuthSlice.AuthSlice.SetPreSignupUserInfo | Frontend/src/store/slices/authSlice.ts:25-27 | The new state is the reducer's result for setPreSignupUserInfo. |
| AuthSlice.AuthSlice.ClearPreSignupUserInfo | Frontend/src/store/slices/authSlice.ts:29-31 | The new state is the reducer's result for clearPreSignupUserInfo. |
| AuthSlice.AuthSlice.SetTokens | Frontend/src/store/slices/authSlice.ts:34-37 | The new state is the reducer's result for setTokens. |
| AuthSlice.AuthSlice.ClearTokens | Frontend/src/store/slices/authSlice.ts:39-42 | The new state is the reducer's result for clearTokens. |
| AuthSlice.AuthSlice.SetProfileComplete | Frontend/src/store/slices/authSlice.ts:45-47 | The new state is the reducer's result for setProfileComplete. |
| AuthSlice.AuthSlice.ResetAuthState | Frontend/src/store/slices/authSlice.ts:50-52 | The new state is the reducer's result for resetAuthState, which is the initial state. |
| Validate.IsBlank | Frontend/src/utils/validate.ts:1-3 | Blank exactly when every character is JavaScript whitespace, so that `trim()` leaves nothing. |
| Validate.ValidateSignup | Frontend/src/utils/validate.ts:11-36 | The gender message is empty exactly for 'MALE' or 'FEMALE'. The birth message is empty exactly for the shape dddd-dd-dd. The consent message is empty exactly when consent is given. A non-empty message is always the field's own fixed text. |
| Validate.FieldsIndependent | Frontend/src/utils/validate.ts:20-33 | Each field's message depends only on that field. |
| Validate.ShapeOnly | Frontend/src/utils/validate.ts:26-28 | "2025-13-99" passes, while "1990-5-21" is refused. |
| Validate.Padded | Frontend/src/utils/validate.ts:26 | A zero-padded numeral has exactly the requested number of digits. |
| Validate.FormattedDatePasses | Frontend/src/utils/validate.ts:26-28 | Every date written with four, two and two zero-padded digits passes. |
| RandomPair.SecondIndex | Frontend/src/utils/random.ts:6-7 | The second index never equals the first, and it is the draw or one above it. |
| RandomPair.SecondIndexInRange | Frontend/src/utils/random.ts:5-7 | The adjusted second index is within the array and differs from the first. |
| RandomPair.SecondIndexBijective | Frontend/src/utils/random.ts:5-7 | Each other position comes from exactly one second draw, so every ordered pair of distinct positions is reachable and equally likely. |
| RandomPair.PickTwo | Frontend/src/utils/random.ts:2-9 | An array of at most two is returned as it is. A longer one gives exactly two of its elements, taken from two different positions. |
| RandomPair.DistinctEntriesGiveDistinctPair | Frontend/src/utils/random.ts:8 | With distinct entries, the two picked values differ. |
| HealthResult.MapStatus | Frontend/src/screens/Health/HealthResultScreen.tsx:39-53 | '-' exactly outside 1..5. Inside 1..5 the text is the severity of the score: 정상 for 1-2, 주의 for 3, 경고 for 4, 위험 for 5. |
| HealthResult.Severity | Frontend/src/screens/Health/HealthResultScreen.tsx:39-53 | Every score in 1..5 has one of the four severities. |
| HealthResult.StatusMonotone | Frontend/src/screens/Health/HealthResultScreen.tsx:39-53 | A higher score never shows a milder status. |
| HealthResult.ColorFollowsText | Frontend/src/screens/Health/HealthResultScreen.tsx:39-53 | Equal status texts have equal colours. |
| HealthResult.MissingAnswerUnknown | Frontend/src/screens/Health/HealthResultScreen.tsx:50-65 | An unanswered question shows '-'. |
| HealthResult.Badge | Frontend/src/screens/Health/HealthResultScreen.tsx:115-137 | The badge reads 건강 exactly when the answer is 5, and 노력! otherwise; a missing answer counts as 0 and gets 노력!. |
| HealthResult.BadgeMeansTopStatus | Frontend/src/screens/Health/HealthResultScreen.tsx:39-116 | The 건강 (healthy) badge is earned exactly when the same answer shows the most severe status, 위험 (danger) (see Findings). |
| HealthResult.BadgeCorrected | Frontend/src/screens/Health/HealthResultScreen.tsx:115-137 | The badge read on the status scale: 건강 exactly when the status is 정상 (normal), so an answer shown as 위험 never earns it. |

## Left out

- The AI services (face and speech models) are left out. They are foreign numeric code; their answers enter `AiDiagnosis` as parameters.
- HTTP calls to the AI servers, their JSON parsing and the LLM call are left out. The LLM is a function parameter of `SelfDiagnosis`.
- The S3 upload and URL are left out. The stream opening and the URL are parameters of `UploadFile`.
- `calculateDistance` (haversine over doubles) is not modelled. Distances are abstract ordered values that come with each row, or from a parameter.
- The repository queries (bounds, radius, name search, find by id, existence and top-5 queries) are parameters or filters over the saved sequence.
- The hard-coded hospital list of `selfDiagnosis` (ids 241 and 671 with fixed distances) is demo data and is left out. `SelfDiagnosis` takes the hospital list as a parameter, and the open-flag rule is `RecommendedOpen`.
- Paging in `searchHospital` is left out: the model returns the whole result list.
- `getHospitalDetail` and the frontend screens, hooks, API modules, navigation and storage are left out, as are JWT, OAuth and Spring configuration and exception translation.
- Floating point is left out. Probabilities, coordinates and distances are `real`, with no rounding.
- Java `int` and `long` overflow is left out. The survey and diary arithmetic stays far within range for inputs in the declared bounds.
- `Text.ToLower`: only ASCII letters are lower-cased. Java's `toLowerCase` also maps other scripts; no allowed extension contains such letters.
- `OpeningHour.ParseLocalTime`: only the "HH:MM" form is accepted. `LocalTime.parse` also accepts "HH:MM:SS" and fractional seconds, which never occur in the stored slots.
- `Text.IsJavaWhitespace` approximates `Character.isWhitespace` by listing its characters; the check against the Unicode tables is not modelled.
- `HospitalQuery.ValuesOf` lists the map's values in an order the model leaves open, like `HashMap`. The sort fixes the order of the result except among equal distances, and the model promises nothing about that tie order.
- `DiagnosisCommand.SelfDiagnosis`: a user whose birth date is null raises a null-pointer exception in the code. The model has no such user: a missing birth date stands for a missing user.
- DiaryCommand.DiaryStore.CreateDiary: calls are taken one at a time. The code checks and then saves with no lock, and the diary table has no unique constraint, so two concurrent requests for the same user and day can both pass the check. The day window also comes from a separate clock read, while the model uses one `now` for the window and the saved time. The one-diary-per-day invariant is therefore proved only for calls made one at a time.
- DiagnosisCommand.AiDiagnosis: a video that was uploaded stays in S3 when a later step fails. The model does not keep S3 state.
- `DiagnosisCommand.AiDiagnosis`: a model answer that is not an integer or a double makes the code's casts fail. The model takes typed answers.
- `HealthResult.MapStatus`: answers are integers. A fractional number matches no case and shows '-' in the app too.
- `RandomPair.PickTwo`: the two `Math.random` draws are passed in as the indices they produce.
- Some revisions of the code disagree with each other, and the model follows the service code in each case:
  - The survey passes an LLM result as a fourth argument to `updateDiagnosis`, while the entity takes three; the entity's three-argument update is modelled.
  - The survey request object reads an arm answer that its DTO does not declare; the arm answer is modelled as a field.
  - The diary request DTO names snack and vegetable answers while the service reads diet and sleep; the service's five answers are modelled.
  - `Hospital.isOpenNow` calls a `getByDay` that the opening-hour entity does not define; it is taken to be the entity's weekday switch.

## Findings

| source | as written | input that shows it | evidently intended | confidence | as-written member | corrected member |
|---|---|---|---|---|---|---|
| Backend/src/main/java/gradude/springVision/domain/hospital/service/HospitalQueryService.java:105-108 | The marker modal sets the open flag to false whenever the hospital has no opening hours, before the emergency override of `Hospital.isOpenNow` is reached. | An emergency hospital with `openingHour == null`: the modal shows it as closed, while the survey's recommendation (DiagnosisCommandService.java:255-256) and the entity's own rule (Hospital.java:53-56) treat emergency rooms as always open. | The modal shows an emergency room as open, as the recommendation does. | medium; not executed | DiagnosisCommand.ModalClosesEmergencyRoom | HospitalQuery.GetHospitalModalCorrected |
| Frontend/src/screens/Health/HealthResultScreen.tsx:115-137 | The row badge reads 건강 (healthy) only for an answer of 5. `mapStatus` (lines 39-53) shows that same answer as 위험 (danger), and gives 정상 (normal) to 1 and 2. | An answer of 5: its summary status is 위험 while its badge says 건강. An answer of 1 shows 정상 with the badge 노력!. | The badge follows the status scale and is earned for a 정상 answer. | low; not executed | HealthResult.BadgeMeansTopStatus | HealthResult.BadgeCorrected |
