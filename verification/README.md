# IoT sensor dashboard: threshold monitoring and alert lifecycle, in Dafny

This project models the decision logic of a sensor dashboard. Devices report four
readings: temperature, humidity, wind speed and gas level. Each reading has its own
`{min, max}` bounds, and each device also has a position. The dashboard:

- turns bound breaches and device movement into alerts;
- marks devices offline when they go quiet;
- acknowledges and clears alerts;
- shows the alerts in several views and notifiers.

Everything is modelled as immutable datatypes and pure step functions. Firestore,
timers and browser APIs are replaced by explicit inputs:

- **Store writes.** A write that may fail takes a `Faults` oracle, which says which
  of the three retried attempts throws.
- **Time.** Time is an `int` of milliseconds passed in by the caller.
- **Parsing and distance.** `JSON.parse`, `parseFloat` and the distance function
  are function parameters.
- **Readings.** Readings are `real`, and coordinates carry an explicit NaN.

Modules, one file each:

| file | module | what it models |
|---|---|---|
| wrappers.dfy | `Wrappers` | `Option` and `Result` |
| strings.dfy | `Strings` | decimal text, substring search, case mapping, `split(' ')`, `trim` |
| lists.dfy | `Lists` | `filter`, `filter(..).length`, `slice(0, n)`, and the subsequence relation |
| types.dfy | `Types` | the `Device` and `Alert` records and the alert kinds |
| json.dfy | `JsonValues` | JSON values, `?.`, `??`, truthiness, and assignment along a dotted path |
| retry.dfy | `Retry` | `retryOperation` with its exponential backoff |
| firestore.dfy | `FirestoreStore` | the Firestore service as a map with retried, fallible writes, and `checkAndFixIssues` |
| subscription.dfy | `Subscription` | the re-subscribe-on-error closure of `subscribeToDevices` |
| fallback.dfy | `Fallback` | the in-memory fallback service and its simulated tick |
| monitor.dfy | `AlertMonitor` | `useAlertMonitoring`: the active-key set, the position cache and the passes over snapshots |
| device_management.dfy | `DeviceManagement` | the liveness evaluator, the clearing of acknowledged alerts, and refresh |
| notifier.dfy | `Notifier` | the alarm (10 s window) and the toast (5 s window) notifiers |
| notification_panel.dfy | `NotificationPanel` | conversion, counts, filter, sort, `formatTimeAgo`, mark-all-read |
| alerts_page.dfy | `AlertsPage` | the alerts page filter, badge, summary, rows and type label |
| dashboard.dfy | `Dashboard` | the dashboard counts, recent alerts and captions |
| devices_page.dfy | `DevicesPage` | name search and device removal |
| classifiers.dfy | `Classifiers` | the three threshold classifiers and how they relate |
| thresholds_page.dfy | `ThresholdsPage` | the threshold editor |
| add_device.dfy | `AddDevice` | the add-device dialog, with its `parseFloat(x) \|\| default` defaults |
| profile.dfy | `Profile` | session time, `formatSessionTime` and the initials |
| settings.dfy | `Settings` | the settings panel, with its shared nested objects |
| connection.dfy | `Connection` | the `loading`/`connectionStatus` machine of `useSafeFirebaseData` |
| auth.dfy | `Auth` | the demo login, logout and session restore |

## Model

| member | source | states |
|---|---|---|
| Types.ParseKind | types/device.ts:24 | An alert type string names exactly one kind; `None` exactly when no kind carries that name |
| Retry.RetryRun | lib/firebase-service.ts:50-68 | At most `maxRetries` calls. Every call before the last one failed. Success returns the last call's value. Total failure means all `maxRetries` calls were made, and the error of the last one is rethrown |
| Retry.RetryOperation | lib/firebase-service.ts:50-68 | The loop agrees with `RetryRun`. It waits `delay * 2^i` after failure `i` only while another attempt remains, so there is one wait fewer than calls |
| Retry.SucceedsIfSomeAttemptDoes | lib/firebase-service.ts:53-56 | If attempt `k < maxRetries` would succeed, the operation succeeds within `k + 1` calls |
| FirestoreStore.WriteSucceeds | lib/firebase-service.ts:50-68 | A retried write succeeds iff the document exists and one of the three attempts gets through |
| FirestoreStore.AddDevice | lib/firebase-service.ts:87-101 | Success iff some attempt gets through. It then stores the new device under its id, stamped now, and leaves the alerts alone. Failure changes nothing |
| FirestoreStore.UpdateDevice | lib/firebase-service.ts:103-116 | Success iff the device exists and an attempt gets through. It merges the patch into that device, always restamps `lastUpdated` to now, and leaves every other device and alert as it was. Failure changes nothing |
| FirestoreStore.DeleteDevice | lib/firebase-service.ts:118-128 | Success removes only the device document. Alerts for that device remain |
| FirestoreStore.GetAlerts | lib/firebase-service.ts:131-148 | The stored alerts when the query gets through; an empty list when every attempt fails |
| FirestoreStore.AcknowledgeIn | lib/firebase-service.ts:163-176 | Same length. The alert with the id is acknowledged and stamped; every other alert is unchanged |
| FirestoreStore.AcknowledgeAgain | lib/firebase-service.ts:163-176 | Acknowledging twice is acknowledging once at the later time: a repeat only restamps |
| FirestoreStore.AcknowledgeAlert | lib/firebase-service.ts:163-176 | Success iff the alert exists and an attempt gets through. Success acknowledges it and leaves the devices alone; failure changes nothing |
| FirestoreStore.Without | lib/firebase-service.ts:178-188 | An alert survives iff it was present and its id is not among those deleted |
| FirestoreStore.DeleteAlert | lib/firebase-service.ts:178-188 | Success removes that alert and leaves the devices; failure changes nothing |
| FirestoreStore.CheckAndFixIssues | lib/firebase-service.ts:12-47 | An uninitialised db is reported as such. A failing probe is retryable iff its message mentions network or timeout, or does not mention permission |
| FirestoreStore.NetworkBeforePermission | lib/firebase-service.ts:31-42 | A message naming both a timeout and a permission problem is classified as a retryable network issue |
| Subscription.Step | lib/firebase-service.ts:196-221 | The counter never exceeds 3. A snapshot from a live listener is delivered and resets the counter. An error schedules a re-subscription after `1000 * retryCount` ms iff fewer than 3 retries were used |
| Subscription.RetriesAreBounded | lib/firebase-service.ts:214-220 | Without snapshots, at most `3 - retryCount` re-subscriptions are scheduled, with linearly growing delays |
| Subscription.SnapshotResets | lib/firebase-service.ts:208-210 | A snapshot from a live listener is delivered and sets the counter to 0 |
| Subscription.UnsubscribeLeaksResubscription | lib/firebase-service.ts:199-224 | Error, re-subscription, then unsubscribe: the re-subscribed listener is still attached |
| Subscription.UnsubscribeIsFinal | lib/firebase-service.ts:199-224 | In the corrected closure, which tracks the current listener, no listener is ever live after unsubscribe, whatever follows |
| Subscription.ClosedStaysClosed | lib/firebase-service.ts:199-224 | Once the corrected closure is closed it stays closed |
| Subscription.RunAppend | lib/firebase-service.ts:199-224 | Running two event sequences one after the other is running their concatenation |
| Fallback.NewDeviceIdsDiffer | lib/firebase-fallback.ts:120 | `device_{timestamp}` ids from different timestamps differ |
| Fallback.AddDevice | lib/firebase-fallback.ts:116-126 | Appends exactly one device, with the new id and a fresh `lastUpdated`. Keeps the existing devices, alerts and listeners, and notifies |
| Fallback.UpdateDevice | lib/firebase-fallback.ts:128-135 | Notifies iff the id exists. Then the first device with that id gets the patch and is restamped, and all others stay. An unknown id changes nothing |
| Lists.Filter | lib/firebase-fallback.ts:139 | An order-preserving subsequence of the input holding only passing elements and every passing element |
| Lists.FilterMultiplicity | lib/firebase-fallback.ts:139 | The filter holds each passing element exactly as often as the input does, and no failing one |
| Lists.FindIndex | lib/firebase-fallback.ts:130 | The position found holds the first element that passes, and there is none iff no element passes |
| Fallback.DeleteDevice | lib/firebase-fallback.ts:137-142 | Keeps exactly the devices with another id and exactly the alerts for other devices, in their order and with their multiplicities, and always notifies |
| Fallback.DeleteLeavesNoOrphans | lib/firebase-fallback.ts:137-142 | No alert for a deleted device survives |
| Fallback.AcknowledgeAlert | lib/firebase-fallback.ts:149-159 | Acknowledges and stamps the first alert with the id and keeps every other alert. An unknown id is a no-op. Never notifies |
| Fallback.Walk | lib/firebase-fallback.ts:170-182 | Offline devices are unchanged. For any jitter, an online device has humidity in [0,100], wind speed at least 0 and gas level at least 0, a fresh stamp, and nothing else changed |
| Fallback.Tick | lib/firebase-fallback.ts:169-184 | Every device is walked in place; alerts and listeners are kept |
| Fallback.Unsubscribe | lib/firebase-fallback.ts:187-190 | Removes every registration of that callback and keeps the other listeners in order, each as often as before |
| Fallback.SubscribeThenUnsubscribe | lib/firebase-fallback.ts:162-190 | Subscribing a new callback and unsubscribing it restores the service exactly |
| AlertMonitor.KeyInjective | hooks/use-alert-monitoring.ts:21 | Two keys `{deviceId}-{type}` are equal iff their device ids and types are |
| AlertMonitor.Violates | hooks/use-alert-monitoring.ts:18-19 | A reading violates its bounds iff it lies outside the closed interval [min, max] |
| AlertMonitor.MetricDraft | hooks/use-alert-monitoring.ts:23-36 | The alert is about that device and metric, carries the reading and the pass time, and is unacknowledged. It reports the max bound with the exceeded message when the reading is above max, and otherwise the min bound with the below message |
| AlertMonitor.MaxFirstWhenMisconfigured | hooks/use-alert-monitoring.ts:28-33 | With min > max, a reading above max reports the max bound |
| AlertMonitor.CheckMetric | hooks/use-alert-monitoring.ts:18-50 | Exactly one create request iff the reading violates and the key is absent. Afterwards the key is present iff the reading violates and the key was there or the write succeeded. No other key changes |
| AlertMonitor.LocationDraft | hooks/use-alert-monitoring.ts:174-183 | A location alert carries the distance, threshold 5 and the pass time |
| AlertMonitor.CheckLocation | hooks/use-alert-monitoring.ts:157-201 | Offline devices are untouched. An online device's position is cached. One request iff a cached position exists, the distance exceeds 5 strictly and the location key is absent. The key is added only after a successful write and never removed |
| AlertMonitor.CheckDevice | hooks/use-alert-monitoring.ts:17-201 | At most five requests per device, all stamped with the pass time. Online devices have their position cached and offline ones do not |
| AlertMonitor.OnSnapshot | hooks/use-alert-monitoring.ts:14-208 | An empty device list runs nothing. Every request of a pass carries the same `createdAt` |
| AlertMonitor.CheckMetricOtherKey | hooks/use-alert-monitoring.ts:38-50 | A metric check touches no key but its own |
| AlertMonitor.PassOthers | hooks/use-alert-monitoring.ts:17-201 | A pass leaves the keys of devices not in the snapshot alone and issues no requests for them |
| AlertMonitor.PassMetricKey | hooks/use-alert-monitoring.ts:18-50 | For a device listed once, a pass requests one alert for a metric iff it violates with no key. Afterwards the key is present iff the metric violates and the key was there or the write succeeded |
| AlertMonitor.PassLocationKey | hooks/use-alert-monitoring.ts:170-188 | A pass never removes a location key, and a stored location alert means the key was absent before and is present after |
| AlertMonitor.PassKeepsPosition | hooks/use-alert-monitoring.ts:157-200 | A pass in which the device is not online leaves its cached position exactly as it was |
| AlertMonitor.PassCachesPosition | hooks/use-alert-monitoring.ts:196-200 | After a pass, an online device's cached position is its current one, whether or not an alert fired |
| AlertMonitor.OneAlertPerBreach | hooks/use-alert-monitoring.ts:21-44 | Over consecutive snapshots in which a metric stays in violation and writes succeed, exactly one alert is requested, or none if its key was already active |
| AlertMonitor.RecoveryRearms | hooks/use-alert-monitoring.ts:46-50 | An in-range reading clears the metric's key, so the next violation requests a new alert |
| AlertMonitor.FailedWriteRetried | hooks/use-alert-monitoring.ts:38-44 | If the write fails, the key stays absent and the next violating snapshot requests the alert again |
| AlertMonitor.AtMostOneLocationAlert | hooks/use-alert-monitoring.ts:170-188 | Over any run, at most one location alert per device is stored, and none if its key was active at the start |
| DeviceManagement.Target | hooks/use-device-management.ts:50-72 | A write is planned iff the status differs from the expected one. It is offline after more than 5·60·1000 ms and online at exactly five minutes or less |
| DeviceManagement.Planned | hooks/use-device-management.ts:54-71 | The pass plans exactly one write per device whose status should change, and nothing else |
| DeviceManagement.PlannedFollowsDue | hooks/use-device-management.ts:54-71 | The writes correspond one for one, in list order, to the devices whose status disagrees with their age, so no device is written twice or out of turn |
| DeviceManagement.Evaluate | hooks/use-device-management.ts:50-72 | A pass issues exactly the planned writes whatever fails: a failed write is caught and the rest are still evaluated. Alerts are untouched |
| DeviceManagement.EvaluateWrites | hooks/use-device-management.ts:56-69 | A status write that gets through stores the new status stamped with now |
| DeviceManagement.OfflineComesBackOnline | hooks/use-device-management.ts:56-66 | Marking a device offline restamps it, so a pass within the next five minutes plans to mark it online again |
| DeviceManagement.RunsAtEveryChange | hooks/use-device-management.ts:75-82 | The evaluator runs at every change of the device list |
| DeviceManagement.NoMinuteWithoutPass | hooks/use-device-management.ts:75-82 | Once mounted, every 60 000 ms window contains a pass |
| DeviceManagement.DeleteEach | hooks/use-device-management.ts:152-154 | Deletes the targets in order, stops at the first failure and reports it. Exactly the targets before that failure are gone |
| DeviceManagement.AcknowledgedOnly | hooks/use-device-management.ts:150 | Exactly the acknowledged alerts, in listing order and each as often as listed |
| DeviceManagement.ClearAcknowledged | hooks/use-device-management.ts:145-159 | The deletes run in listing order over the acknowledged alerts and stop at the first that fails: the call succeeds iff none fails, and exactly the alerts before the failure are gone. Unacknowledged alerts are never deleted, a full success leaves exactly them, and a failed fetch deletes nothing |
| DeviceManagement.RefreshAlerts | hooks/use-device-management.ts:132-142 | Refresh shows the stored alerts, and an empty list when the fetch fails; loading ends either way |
| DeviceManagement.RefreshOutageBlanks | hooks/use-device-management.ts:132-142 | A failed fetch replaces a non-empty alert list with the empty one |
| DeviceManagement.RefreshAlertsKeeping | hooks/use-device-management.ts:132-142 | The corrected refresh keeps the alerts on screen when the fetch fails |
| Notifier.CandidateIsFirstUnread | components/alerts/alarm-system.tsx:21-22 | The candidate is the first unacknowledged alert in list order; there is none iff every alert is acknowledged |
| Notifier.React | components/alerts/alarm-system.tsx:24-30 | Fires iff a candidate exists, it is not the last fired id, and it is younger than the window. Firing records its id; otherwise the remembered id is unchanged |
| Notifier.NoRefire | components/alerts/alarm-system.tsx:102 | After firing for an alert, the notifier stays silent while that alert remains the candidate, at any later time |
| Notifier.OncePerCandidate | components/alerts/alert-notification.tsx:29-82 | Over any series of changes with the same candidate, at most one firing, and none if it had already fired for it |
| Notifier.ToastImpliesAlarm | components/alerts/alert-notification.tsx:29-35 | The 5 s toast window lies inside the 10 s alarm window |
| Notifier.OnlyAlarmBetweenWindows | components/alerts/alarm-system.tsx:24-30 | An alert between 5 and 10 seconds old sounds the alarm but shows no toast |
| Notifier.AlarmMutedExactly | components/alerts/alarm-system.tsx:32-45 | The alarm is muted iff the stored settings parse and hold a non-null falsy `notifications.alarmSound`. A missing entry or a parse failure leaves it on |
| Notifier.SavedSettingsMuteAlarm | components/alerts/alarm-system.tsx:32-45 | Turning the alarm sound off in the settings panel and saving mutes the alarm |
| Notifier.AlarmSound | components/alerts/alarm-system.tsx:32-49 | A sound plays only with an audio context, and with no stored settings whenever one exists |
| Notifier.ToastSound | components/alerts/alert-notification.tsx:37-52 | A sound plays only with an audio element. A missing or unparseable entry counts as enabled, and a stored `soundEnabled: false` mutes it |
| Notifier.ToastMutedExactly | components/alerts/alert-notification.tsx:37-52 | The toast is silent iff there is no audio element, or the stored settings parse and hold a non-null falsy `soundEnabled`. A missing entry or a parse failure leaves the sound on |
| Notifier.IconOf | components/alerts/alert-notification.tsx:54-67 | The generic warning icon is used exactly for location alerts |
| Notifier.IconsDistinguishMetrics | components/alerts/alert-notification.tsx:54-67 | Each metric has its own icon |
| Notifier.AlarmIcon | components/alerts/alarm-system.tsx:80-83 | The alarm toast shows the metric's icon, and none for location |
| NotificationPanel.LevelOf | components/layout/enhanced-notification-panel.tsx:51-60 | Temperature and location are critical; humidity and wind speed are warnings; gas level is info |
| NotificationPanel.PriorityOf | components/layout/enhanced-notification-panel.tsx:51-60 | Priority 1 iff critical, 2 iff warning, otherwise 3 |
| NotificationPanel.Title | components/layout/enhanced-notification-panel.tsx:65 | The title is the type name with its first letter upper-cased, followed by " Alert" |
| NotificationPanel.TitleReadsBack | components/layout/enhanced-notification-panel.tsx:65 | Lower-casing the first letter and dropping " Alert" gives the type name back |
| NotificationPanel.TitleNamesType | components/layout/enhanced-notification-panel.tsx:65 | Different types get different titles |
| NotificationPanel.Convert | components/layout/enhanced-notification-panel.tsx:49-75 | A converted entry keeps id, device and message. `isRead` is `acknowledged`, the timestamp is `createdAt`, and level, priority and title come from the type |
| NotificationPanel.ConvertAll | components/layout/enhanced-notification-panel.tsx:49-75 | Conversion is one-to-one and keeps the order |
| NotificationPanel.CriticalWithinUnread | components/layout/enhanced-notification-panel.tsx:98-99 | The critical count never exceeds the unread count |
| NotificationPanel.UnreadCountsUnacknowledged | components/layout/enhanced-notification-panel.tsx:98 | The unread count equals the number of unacknowledged alerts |
| NotificationPanel.Shown | components/layout/enhanced-notification-panel.tsx:102-104 | Critical-only keeps exactly the critical entries, in order and each as often as before; otherwise everything is shown |
| NotificationPanel.Badge | components/layout/enhanced-notification-panel.tsx:266 | No badge iff there is nothing unread. The badge reads "99+" iff more than 99 are unread |
| NotificationPanel.BadgeReadsBack | components/layout/enhanced-notification-panel.tsx:266 | Up to 99, the badge is the decimal count |
| NotificationPanel.InsertKeepsSorted | components/layout/enhanced-notification-panel.tsx:107-110 | Inserting into a list ordered by priority, then newest first, keeps it ordered |
| NotificationPanel.Sort | components/layout/enhanced-notification-panel.tsx:107-110 | The result is ordered by ascending priority, then newest first, and is a permutation of the input |
| NotificationPanel.Resolved | components/layout/enhanced-notification-panel.tsx:470-478 | The resolved section shows the first three read entries, or all of them if there are fewer |
| NotificationPanel.AgoOf | components/layout/enhanced-notification-panel.tsx:238-250 | "Just now" iff less than a minute. Otherwise the shown number of minutes (below 60), hours (below 24) or days is exactly the number of whole units elapsed |
| NotificationPanel.AgoMonotone | components/layout/enhanced-notification-panel.tsx:238-250 | An older alert never shows a smaller unit |
| NotificationPanel.AcknowledgeEach | components/layout/enhanced-notification-panel.tsx:155-175 | Acknowledges the ids in order and stops at the first failure. Only acknowledgement fields change, and exactly the alerts before the stop become acknowledged. Nothing is deleted |
| NotificationPanel.MarkAllAsRead | components/layout/enhanced-notification-panel.tsx:155-197 | Mark-all-read and clear-all change nothing but acknowledgement fields and delete nothing |
| NotificationPanel.UnreadIds | components/layout/enhanced-notification-panel.tsx:158 | The ids of the unread entries, one per entry and in list order |
| NotificationPanel.MarkAllClearsEverything | components/layout/enhanced-notification-panel.tsx:155-175 | When every write gets through, every alert ends acknowledged |
| NotificationPanel.AcknowledgeEachListed | components/layout/enhanced-notification-panel.tsx:155-175 | When every write gets through and every id is stored, the loop acknowledges every alert whose id it was given |
| NotificationPanel.LoadSettings | components/layout/enhanced-notification-panel.tsx:79-88 | The stored settings replace the defaults when they parse; otherwise the defaults stay |
| NotificationPanel.CriticalOnly | components/layout/enhanced-notification-panel.tsx:102-104 | Critical-only is on iff the settings object holds a truthy `showCriticalOnly`; settings that are `null` throw |
| NotificationPanel.StoredNullBreaksFilter | components/layout/enhanced-notification-panel.tsx:79-104 | The filter throws iff the stored settings parse to `null`; the defaults show every notification |
| NotificationPanel.UpdateSettings | components/layout/enhanced-notification-panel.tsx:91-95 | The given keys are overwritten and the others kept, and the result is what gets stored |
| NotificationPanel.SoundOffSilencesToasts | components/layout/enhanced-notification-panel.tsx:91-95 | Turning `soundEnabled` off in the panel mutes the toast notifier's sound |
| AlertsPage.Filtered | app/alerts/page.tsx:18-27 | An order-preserving subsequence: exactly the alerts matching the search, type and status filters, each as often as in the input |
| AlertsPage.EverythingByDefault | app/alerts/page.tsx:18-27 | An empty search with "all" and "all" lists every alert |
| AlertsPage.LocationOnlyUnderAllTypes | app/alerts/page.tsx:110-114 | A location alert passes an offered type filter only under "All Types" |
| AlertsPage.ActivePlusAcknowledged | app/alerts/page.tsx:81 | The active badge and the acknowledged list account for every alert |
| AlertsPage.Summary | app/alerts/page.tsx:177 | The first six unacknowledged alerts in list order, or all of them when there are fewer: exactly the leading part of the unacknowledged filter |
| AlertsPage.Rows | app/alerts/page.tsx:274 | One row per listed alert. Acknowledge is offered iff the alert is unacknowledged, and it targets that alert's id |
| AlertsPage.SpaceBeforeUpper | app/alerts/page.tsx:239 | A capital letter becomes a space and the letter, any other character stays as it is, and the text never shrinks |
| AlertsPage.SpaceBeforeUpperAppend | app/alerts/page.tsx:239 | The space insertion works character by character, so it distributes over concatenation |
| AlertsPage.LowerCaseLabelUnchanged | app/alerts/page.tsx:239 | A lower-case name without surrounding spaces is its own label |
| AlertsPage.CamelCaseLabel | app/alerts/page.tsx:239 | A two-word camel-case name gets one space before its capital |
| AlertsPage.WindSpeedLabel | app/alerts/page.tsx:239 | "windSpeed" becomes "wind Speed" |
| AlertsPage.GasLevelLabel | app/alerts/page.tsx:239 | "gasLevel" becomes "gas Level" |
| Dashboard.OfflineFigure | app/page.tsx:118 | Total minus online is exactly the number of offline devices |
| Dashboard.OutsideLimitsIsSomeViolation | app/page.tsx:24-33 | A device is critical iff some metric is outside [min, max] |
| Dashboard.CriticalDevicesZero | app/page.tsx:24-33 | The critical count is 0 iff no device is outside its limits |
| Dashboard.RecentAlerts | app/page.tsx:302 | The first three unacknowledged alerts in list order, or all of them when there are fewer: exactly the leading part of the unacknowledged filter, so at least one whenever any is active |
| Dashboard.Caption | app/page.tsx:161 | A warning figure's caption is its alarming text iff the figure is non-zero, and its calm text iff it is zero; the critical-devices card at line 204 uses the same rule with its own pair of texts |
| DevicesPage.FilteredDevices | app/devices/page.tsx:32-34 | An order-preserving subsequence: exactly the devices whose lower-cased name contains the lower-cased term, each as often as in the input |
| DevicesPage.EmptySearchKeepsAll | app/devices/page.tsx:32-34 | An empty term keeps every device |
| DevicesPage.RemoveDevice | app/devices/page.tsx:36-50 | Removes that row's device. The success notice appears iff the delete got through and the failure notice otherwise, without rethrowing. Alerts are kept |
| Classifiers.ThresholdStatus | app/thresholds/page.tsx:86-91 | Normal iff min ≤ value ≤ max, otherwise Violation |
| Classifiers.ThresholdsPageAgreesWithMonitor | app/thresholds/page.tsx:86-91 | The thresholds page reports a violation iff the monitor sees one |
| Classifiers.SensorStatusOf | components/devices/device-detail-modal.tsx:29-33 | Below iff value < min. Above iff it is not below and value > max. Normal iff min ≤ value ≤ max |
| Classifiers.ModalAndMonitorDisagree | components/devices/device-detail-modal.tsx:30-31 | With max < value < min, the modal says Below while the monitor reports the max bound |
| Classifiers.SeverityOf | components/devices/enhanced-device-detail-modal.tsx:51-59 | Critical iff out of range. Warning iff in range with value < 1.1·min and value > 0.9·max. Normal otherwise; exactly one holds |
| Classifiers.NoWarningWithoutPositiveMin | components/devices/enhanced-device-detail-modal.tsx:52-55 | With min ≤ 0 a reading is never a warning |
| Classifiers.WarningBand | components/devices/enhanced-device-detail-modal.tsx:54-55 | A warning needs a positive min and a reading in [min, 1.1·min) |
| Classifiers.DeviceSeverityOf | components/devices/enhanced-device-detail-modal.tsx:123-126 | Each metric is classified against its own bounds |
| Classifiers.ModalCriticalMatchesDashboard | components/devices/enhanced-device-detail-modal.tsx:123-126 | Some metric is critical in the modal iff the dashboard counts the device as critical |
| ThresholdsPage.EditDevice | app/thresholds/page.tsx:32-44 | Opening the editor copies each of the eight bounds into its own field |
| ThresholdsPage.ParseForm | app/thresholds/page.tsx:50-69 | Each field goes back to the same metric and bound, with no check that min ≤ max |
| ThresholdsPage.SaveThresholds | app/thresholds/page.tsx:46-84 | With no device being edited, nothing happens. Otherwise the editor closes iff the update succeeds, and stays open with its fields on failure. Success stores the parsed bounds through `updateDevice` |
| ThresholdsPage.EditThenSaveKeepsThresholds | app/thresholds/page.tsx:32-84 | Opening and saving unchanged stores the same thresholds and restamps the device |
| AddDevice.OrDefault | components/devices/add-device-dialog.tsx:59-76 | The default replaces NaN and also a parsed 0 |
| AddDevice.Draft | components/devices/add-device-dialog.tsx:50-77 | The new device is online. Its readings are the parsed values with NaN as 0, and its bounds are the parsed values or the defaults |
| AddDevice.EmptyBoundsGiveDefaults | components/devices/add-device-dialog.tsx:59-76 | Empty bound fields give temperature [-10,50], humidity [0,100], wind [0,30] and gas [0,1000] |
| AddDevice.ZeroMaximumIsReplaced | components/devices/add-device-dialog.tsx:61 | Entering 0 as the temperature maximum stores 50 |
| AddDevice.Submit | components/devices/add-device-dialog.tsx:36-123 | A missing name, latitude or longitude is rejected with no write. Otherwise it adds iff the write gets through, and then the form resets and the dialog closes; on failure the form is kept. Submitting is false after every outcome |
| Profile.SessionTime | components/layout/enhanced-profile-panel.tsx:37-48 | Whole seconds elapsed, rounded down; non-negative iff the clock has not gone backwards |
| Profile.SessionTimeMonotone | components/layout/enhanced-profile-panel.tsx:41-44 | The session time never decreases as the clock advances |
| Profile.ClockOf | components/layout/enhanced-profile-panel.tsx:50-53 | hours·3600 + minutes·60 + secs equals the seconds, with minutes < 60 and secs < 60 |
| Profile.ClockUnique | components/layout/enhanced-profile-panel.tsx:50-53 | That decomposition is the only one |
| Profile.FormatSessionTime | components/layout/enhanced-profile-panel.tsx:55-61 | "{h}h {m}m {s}s" when there are hours, "{m}m {s}s" when there are minutes, else "{s}s" |
| Profile.FormatSessionTimeReadsBack | components/layout/enhanced-profile-panel.tsx:50-61 | Reading the text back gives the number of seconds, so the format loses nothing |
| Profile.Firsts | components/layout/enhanced-profile-panel.tsx:147 | Exactly one character per non-empty word, the first character of that word, in word order; none iff every word is empty |
| Profile.Initials | components/layout/enhanced-profile-panel.tsx:147 | The first characters of the name's space-separated words, joined; "JD" without a user or when every word is empty. Never empty |
| Profile.TwoWordInitials | components/layout/enhanced-profile-panel.tsx:147 | "First Last" gives the two first letters |
| Profile.BlankNameIsJD | components/layout/enhanced-profile-panel.tsx:147 | A name of spaces only gives "JD" |
| Settings.Spread | components/layout/enhanced-settings-panel.tsx:78-88 | Each stored top-level key replaces the default entry wholesale, and the other defaults stay |
| Settings.Mount | components/layout/enhanced-settings-panel.tsx:78-88 | On mount the stored object is merged over the defaults; a missing or unparseable entry keeps the defaults. Nothing is unsaved |
| Settings.Defaults | components/layout/enhanced-settings-panel.tsx:43-70 | The defaults include alarm sound on, volume 75 and refresh rate 5 |
| Settings.StoredGroupReplacesDefaults | components/layout/enhanced-settings-panel.tsx:78-88 | A stored sub-record lacking a key leaves that key missing, not defaulted |
| Settings.UpdateAssignsPath | components/layout/enhanced-settings-panel.tsx:91-105 | When no two keys share an object, an update sets exactly the leaf at the dotted path, leaving every other leaf. It fails exactly where the assignment would throw |
| Settings.Save | components/layout/enhanced-settings-panel.tsx:108-110 | Stores the current settings, clears the unsaved flag and changes nothing else |
| Settings.SaveThenMount | components/layout/enhanced-settings-panel.tsx:78-110 | A saved top-level entry reads the same after a reload |
| Settings.Reset | components/layout/enhanced-settings-panel.tsx:119-121 | Reset points back to the defaults and marks the settings unsaved |
| Settings.Import | components/layout/enhanced-settings-panel.tsx:156-168 | A parsed file is merged over the defaults and marks unsaved; a parse failure changes nothing |
| Settings.ResetAfterNestedEdit | components/layout/enhanced-settings-panel.tsx:91-121 | Turning the alarm sound off and then resetting still shows it off, because the edit wrote into the shared default object |
| Settings.UpdatePathCopying | components/layout/enhanced-settings-panel.tsx:91-105 | The copying update leaves the heap alone and reads as assignment at the path, failing exactly where that would throw |
| Settings.CopyingResetRestores | components/layout/enhanced-settings-panel.tsx:91-121 | With the copying update, a reset after any edit shows the defaults again |
| JsonValues.SetThenGet | components/layout/enhanced-settings-panel.tsx:93-104 | An assignment along a path is read back at that path, and at no path that parts ways with it |
| Connection.Init | hooks/use-safe-firebase-data.ts:17-61 | Connecting only after a full set-up. A missing service or a throw falls back with loading off, and only a throw sets the error. The timeout stays pending unless the service is missing |
| Connection.Step | hooks/use-safe-firebase-data.ts:26-85 | A device snapshot replaces the devices, connects, ends loading and cancels the timeout. A pending timeout falls back. Alert snapshots change only alerts. The health check changes nothing |
| Connection.RunConsistent | hooks/use-safe-firebase-data.ts:17-61 | The spinner shows iff connecting, and a pending timeout means not connected, along any run |
| Connection.ConnectedIsFinal | hooks/use-safe-firebase-data.ts:26-44 | Once connected, nothing makes the status fall back |
| Connection.LoadingSettles | hooks/use-safe-firebase-data.ts:17-61 | Once loading has ended it never resumes |
| Connection.FirstSnapshotConnects | hooks/use-safe-firebase-data.ts:42-49 | The first device snapshot connects for good |
| Connection.SilenceFallsBack | hooks/use-safe-firebase-data.ts:26-30 | With no data before the timeout, the hook falls back and stops loading |
| Connection.FallbackReconnects | hooks/use-safe-firebase-data.ts:42-60 | A snapshot after fallback switches back to connected |
| Connection.QuietEventsKeepStatus | hooks/use-safe-firebase-data.ts:51-85 | Alert snapshots and health checks change neither status, loading nor devices |
| Auth.Restore | hooks/use-auth.ts:30-37 | A stored user is restored and loading ends. A corrupt entry throws before loading ends |
| Auth.Login | hooks/use-auth.ts:39-52 | Succeeds iff the email and password are the demo ones, then sets and stores the fixed user. Failure throws "Invalid credentials" and changes nothing |
| Auth.Logout | hooks/use-auth.ts:54-57 | Clears the user and removes exactly the stored entry |
| Auth.UseAuth | hooks/use-auth.ts:18-24 | Throws outside a provider, otherwise yields the context |
| Auth.LoginThenReload | hooks/use-auth.ts:30-52 | After a login, a reload restores the same user |
| Auth.LogoutThenReload | hooks/use-auth.ts:30-57 | After a logout, a reload finds no user |
| Auth.FailedLoginRestoresSame | hooks/use-auth.ts:30-52 | A failed login leaves the reloaded session as it was |

## Left out

- Rendering, styling, theming, maps, the sidebar and headers, and the purely presentational components are not modelled.
- The distance between two positions (`calculateDistance`) is a parameter, because its module (lib/utils) is not part of this model.
- Decimal formatting of readings (`toString`, `toFixed`) is a parameter. So is `parseFloat`, which returns a number or NaN.
- Floating-point rounding is not modelled: the fallback tick's `Math.round` steps and the percentages. Readings are exact reals.
- The fallback tick's random deltas are an arbitrary oracle.
- Timers, `await` and the backoff sleeps are not modelled. Time is an explicit input, a pass is one atomic step, and `RetryOperation` returns the waits instead of sleeping.
- Firestore is a map with per-attempt outcomes. Its query ordering, server timestamps and document conversion are not modelled.
- The console logging is left out, and so is the `console.warn` of each retry.
- Each mounted copy of a hook is modelled once. Four pages mount their own alert monitor, and two notifiers are mounted together, but their interleavings are not modelled.
- The unmount clean-ups of the hooks are not modelled.
- AlertMonitor.RunPass: all write outcomes of one pass come from one oracle. Two identical drafts in the same pass share an outcome, which only duplicate device ids can produce.
- Fallback: `getDevices` and `getAlerts` return fresh copies of the arrays. With immutable sequences a copy is the sequence itself, so those two are not modelled separately. `subscribeToAlerts` is not modelled: it pushes the alerts once and returns a no-op.
- Connection.Step: the result of the five-second `checkAndFixIssues` health check is only logged. It is modelled as an event that changes nothing.
- Settings.Spread: a stored value that parses to something other than an object contributes no keys. JavaScript spreads the indices of an array or string.
- Settings.UpdatePath: array values on a path are treated as non-objects. An assignment into them fails in the model, while JavaScript would write an index.
- ThresholdsPage.SaveThresholds: a field that does not parse ends the save with a "not a number" outcome. The source would store NaN as the bound, and bounds in this model are reals.
- Profile.FormatSessionTime: takes a natural number, so a clock that runs backwards (negative session time) is not formatted.
- Auth.Restore: `decode` answers a user or nothing. A stored `null`, or a JSON value that is not a user object, is not modelled.
- NotificationPanel.Sort: ties in priority and time are ordered, but the stability of JavaScript's sort is not stated.
- Strings.Lower: folds the ASCII letters A-Z only. JavaScript's `toLowerCase` folds every Unicode letter, so names and search terms with other letters match differently.
- AlertsPage.Filtered: its search is case-insensitive over ASCII letters only, through Strings.Lower.
- DevicesPage.FilteredDevices: its name match is case-insensitive over ASCII letters only, through Strings.Lower.
- The monitor's alert messages use the formatting parameter. The location message text is not stated.
- `actions/device-actions.ts` is a wrapper that catches errors. Its effect appears as `AddDevice.Submit` failing with a kept form.

## Findings

| source | as written | input that shows it | evidently intended | confidence | as-written member | corrected member |
|---|---|---|---|---|---|---|
| components/layout/enhanced-settings-panel.tsx:91-121 | `updateSettings` copies only the top level, then assigns into the nested object it walks to, which is the sub-record of `defaultSettings` itself | update `notifications.alarmSound` to false, then reset | reset restores the defaults | not executed | Settings.ResetAfterNestedEdit | Settings.CopyingResetRestores |
| lib/firebase-service.ts:199-224 | a re-subscription after an error creates a new listener, but the caller holds only the first handle | a listener error, the retry timer firing, then unsubscribe | unsubscribe detaches whichever listener is current | not executed | Subscription.UnsubscribeLeaksResubscription | Subscription.UnsubscribeIsFinal |
| hooks/use-device-management.ts:132-142 with lib/firebase-service.ts:144-147 | `getAlerts` swallows errors and returns an empty list, which refresh then shows | a refresh while every attempt to read the alerts fails | a failed refresh keeps the alerts on screen | not executed | DeviceManagement.RefreshOutageBlanks | DeviceManagement.RefreshAlertsKeeping |
