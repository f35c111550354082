/** The global authentication store (`useAuthStore`): a record of the current
    session, a loading flag, the admin flag and the last error message, with the
    actions that update it. Each backend call an action awaits is an input. */
module AuthStore {
  import opened Gateway

  datatype AuthState = AuthState(session: Option<Session>, isLoading: bool, isAdmin: bool, error: Option<string>)

  /** One action's effect on the store: the snapshot after each `set`, in order,
      and the value the action resolves to. */
  datatype Run<R> = Run(states: seq<AuthState>, reply: R)

  /** The store once the action has finished. */
  function After(s: AuthState, states: seq<AuthState>): AuthState {
    if |states| == 0 then s else states[|states| - 1]
  }

  /** The first `set` of every action that shows a spinner. */
  function Begin(s: AuthState): AuthState {
    s.(isLoading := true, error := None)
  }

  /** The loading bracket every awaited action keeps: it starts by clearing the
      error and raising the loading flag, keeps the flag up while it waits, and
      lowers it on the way out, whichever way it leaves. */
  predicate Bracketed(s: AuthState, states: seq<AuthState>) {
    && |states| >= 2
    && states[0] == s.(isLoading := true, error := None)
    && (forall i :: 0 <= i < |states| - 1 ==> states[i].isLoading)
    && !states[|states| - 1].isLoading
  }

  /** The snapshots of an action that either reached `settled` or failed with a message. */
  function Conclude(s: AuthState, outcome: Outcome<AuthState>): (states: seq<AuthState>)
    requires outcome.Ok? ==> outcome.value.isLoading
    ensures Bracketed(s, states)
    ensures outcome.Ok? ==> After(s, states) == outcome.value.(isLoading := false)
    ensures outcome.Err? ==> After(s, states) == s.(isLoading := false, error := Some(outcome.message))
    ensures |states| >= 2 && states[|states| - 2] ==
              (if outcome.Ok? then outcome.value else s.(isLoading := true, error := Some(outcome.message)))
  {
    var entered := Begin(s);
    var settled := match outcome
      case Ok(next) => next
      case Err(msg) => entered.(error := Some(msg));
    [entered, settled, settled.(isLoading := false)]
  }

  /** `setSession`: the store adopts the given session and stops loading. */
  function SetSession(s: AuthState, session: Option<Session>): (r: AuthState)
    ensures r.session == session && !r.isLoading
    ensures r.isAdmin == s.isAdmin && r.error == s.error
  {
    s.(session := session, isLoading := false)
  }

  datatype Credentials = Credentials(email: string, password: string)

  /** What `signIn` resolves to; `isAdmin` is only present for the admin login. */
  datatype SignInReply = SignInReply(error: Option<string>, isAdmin: Option<bool>)

  /** `signIn`: `gateway` is the reply of the password sign-in for these
      credentials; `admin` is the one credential pair treated as the administrator. */
  function SignIn(s: AuthState, email: string, password: string, admin: Credentials,
                  gateway: Outcome<Option<Session>>): (run: Run<SignInReply>)
    ensures Bracketed(s, run.states)
    ensures gateway.Ok? && Credentials(email, password) == admin ==>
              && After(s, run.states).session == gateway.value
              && After(s, run.states).isAdmin
              && run.reply == SignInReply(None, Some(true))
    ensures gateway.Ok? && Credentials(email, password) != admin ==>
              && After(s, run.states).session == gateway.value
              && !After(s, run.states).isAdmin
              && run.reply == SignInReply(None, None)
    ensures gateway.Err? ==>
              && After(s, run.states) == s.(isLoading := false, error := Some(gateway.message))
              && run.reply == SignInReply(Some(gateway.message), None)
    ensures gateway.Ok? ==> After(s, run.states).error.None?
  {
    var isAdmin := email == admin.email && password == admin.password;
    match gateway
    case Ok(session) =>
      Run(Conclude(s, Ok(Begin(s).(session := session, isAdmin := isAdmin))),
          SignInReply(None, if isAdmin then Some(true) else None))
    case Err(msg) =>
      Run(Conclude(s, Err(msg)), SignInReply(Some(msg), None))
  }

  /** `signUp`: on success the store takes whatever session the sign-up returned
      (none while the email is unconfirmed); the reply carries the error, if any. */
  function SignUp(s: AuthState, gateway: Outcome<Option<Session>>): (run: Run<Option<string>>)
    ensures Bracketed(s, run.states)
    ensures run.reply.None? <==> gateway.Ok?
    ensures gateway.Ok? ==> After(s, run.states) == s.(session := gateway.value, isLoading := false, error := None)
    ensures gateway.Err? ==> After(s, run.states) == s.(isLoading := false, error := Some(gateway.message))
                             && run.reply == Some(gateway.message)
  {
    match gateway
    case Ok(session) => Run(Conclude(s, Ok(Begin(s).(session := session))), None)
    case Err(msg) => Run(Conclude(s, Err(msg)), Some(msg))
  }

  /** `signOut`: the session and admin flag are dropped only when the backend
      reports no error; on an error the store is left exactly as it was. */
  function SignOut(s: AuthState, gatewayError: Option<string>): (run: Run<()>)
    ensures gatewayError.Some? ==> run.states == []
    ensures gatewayError.None? ==> After(s, run.states) == s.(session := None, isAdmin := false)
    ensures gatewayError.None? ==> run.states == [s.(session := None, isAdmin := false)]
  {
    if gatewayError.Some? then Run([], ()) else Run([s.(session := None, isAdmin := false)], ())
  }

  /** `resetPassword`: only the error flag and the loading bracket change. */
  function ResetPassword(s: AuthState, gatewayError: Option<string>): (run: Run<Option<string>>)
    ensures Bracketed(s, run.states)
    ensures run.reply == gatewayError
    ensures After(s, run.states) == s.(isLoading := false, error := gatewayError)
  {
    var entered := Begin(s);
    if gatewayError.Some? then
      Run(Conclude(s, Err(gatewayError.value)), gatewayError)
    else
      Run([entered, entered.(isLoading := false)], None)
  }

  // ---------------------------------------------------------------------------
  // updateProfile

  datatype Field = FullName | AvatarUrl | SeasonalAllergies | Medications | BloodType
                 | EmergencyContactName | EmergencyContactPhone

  datatype Value = Text(text: string) | List(items: seq<string>)

  /** The argument of `updateProfile`; `None` is a field left `undefined`. */
  datatype ProfileUpdates = ProfileUpdates(
    fullName: Option<string>,
    avatarUrl: Option<string>,
    seasonalAllergies: Option<seq<string>>,
    medications: Option<seq<string>>,
    bloodType: Option<string>,
    emergencyContactName: Option<string>,
    emergencyContactPhone: Option<string>)

  /** The value the caller gave for one field, if any. */
  function Requested(u: ProfileUpdates, f: Field): Option<Value> {
    match f
    case FullName => if u.fullName.Some? then Some(Text(u.fullName.value)) else None
    case AvatarUrl => if u.avatarUrl.Some? then Some(Text(u.avatarUrl.value)) else None
    case SeasonalAllergies => if u.seasonalAllergies.Some? then Some(List(u.seasonalAllergies.value)) else None
    case Medications => if u.medications.Some? then Some(List(u.medications.value)) else None
    case BloodType => if u.bloodType.Some? then Some(Text(u.bloodType.value)) else None
    case EmergencyContactName =>
      if u.emergencyContactName.Some? then Some(Text(u.emergencyContactName.value)) else None
    case EmergencyContactPhone =>
      if u.emergencyContactPhone.Some? then Some(Text(u.emergencyContactPhone.value)) else None
  }

  /** `updateData`: the record built field by field, keeping only the defined ones. */
  function UpdateData(u: ProfileUpdates): (data: map<Field, Value>)
    ensures forall f :: f in data <==> Requested(u, f).Some?
    ensures forall f :: f in data ==> data[f] == Requested(u, f).value
  {
    var d0: map<Field, Value> := map[];
    var d1 := if u.fullName.Some? then d0[FullName := Text(u.fullName.value)] else d0;
    var d2 := if u.avatarUrl.Some? then d1[AvatarUrl := Text(u.avatarUrl.value)] else d1;
    var d3 := if u.seasonalAllergies.Some? then d2[SeasonalAllergies := List(u.seasonalAllergies.value)] else d2;
    var d4 := if u.medications.Some? then d3[Medications := List(u.medications.value)] else d3;
    var d5 := if u.bloodType.Some? then d4[BloodType := Text(u.bloodType.value)] else d4;
    var d6 := if u.emergencyContactName.Some? then d5[EmergencyContactName := Text(u.emergencyContactName.value)] else d5;
    if u.emergencyContactPhone.Some? then d6[EmergencyContactPhone := Text(u.emergencyContactPhone.value)] else d6
  }

  /** JavaScript truthiness of a field value, as `value || null` tests it: an
      empty string is falsy, every array is truthy. (`Navigation.Truthy` is the
      same test on an optional query value.) */
  predicate TruthyValue(v: Value) {
    v.Text? ==> v.text != ""
  }

  /** The fields the profile procedure takes; the avatar is not among them. */
  const RpcFields: set<Field> :=
    {FullName, BloodType, SeasonalAllergies, Medications, EmergencyContactName, EmergencyContactPhone}

  /** Arguments of the `update_user_profile` procedure: one entry per parameter,
      `None` standing for `null`. */
  datatype RpcArgs = RpcArgs(userId: string, args: map<Field, Option<Value>>)

  /** `updateData.f || null`. */
  function OrNull(data: map<Field, Value>, f: Field): Option<Value> {
    if f in data && TruthyValue(data[f]) then Some(data[f]) else None
  }

  function ProfileRpcArgs(userId: string, data: map<Field, Value>): (a: RpcArgs)
    ensures a.userId == userId
    ensures a.args.Keys == RpcFields && AvatarUrl !in a.args
    ensures forall f :: f in a.args ==> (a.args[f].Some? <==> f in data && TruthyValue(data[f]))
    ensures forall f :: f in a.args && a.args[f].Some? ==> a.args[f].value == data[f]
  {
    RpcArgs(userId, map[
      FullName := OrNull(data, FullName),
      BloodType := OrNull(data, BloodType),
      SeasonalAllergies := OrNull(data, SeasonalAllergies),
      Medications := OrNull(data, Medications),
      EmergencyContactName := OrNull(data, EmergencyContactName),
      EmergencyContactPhone := OrNull(data, EmergencyContactPhone)])
  }

  /** The row the direct fallback writes into the profiles table. */
  datatype ProfileRow = ProfileRow(id: string, data: map<Field, Value>, updatedAt: string)

  /** The backend calls `updateProfile` makes after `getUser`, in order (the
      `getUser` reply is the input `currentUser`). */
  datatype ProfileCall =
    | UpdateMetadata(data: map<Field, Value>)
    | CallProfileRpc(args: RpcArgs)
    | UpsertProfile(row: ProfileRow)
    | RefreshSession

  /** The replies `updateProfile` would receive: the signed-in user, the errors
      of the metadata update, the procedure and the fallback upsert, and the
      refreshed session. */
  datatype ProfileGateway = ProfileGateway(
    currentUser: Option<User>,
    updateUser: Option<string>,
    rpc: Option<string>,
    upsert: Option<string>,
    refreshed: Outcome<Option<Session>>)

  const NoUserMessage := "No user is currently logged in"

  /** The calls made and how they end, before any store update. */
  datatype Attempt = Attempt(calls: seq<ProfileCall>, result: Outcome<Option<Session>>)

  function ProfileCalls(updates: ProfileUpdates, gw: ProfileGateway, now: string): Attempt {
    var data := UpdateData(updates);
    if gw.currentUser.None? then Attempt([], Err(NoUserMessage))
    else
      var id := gw.currentUser.value.id;
      var metadata := [UpdateMetadata(data)];
      if gw.updateUser.Some? then Attempt(metadata, Err(gw.updateUser.value))
      else
        var rpc := metadata + [CallProfileRpc(ProfileRpcArgs(id, data))];
        var stored := if gw.rpc.Some? then rpc + [UpsertProfile(ProfileRow(id, data, now))] else rpc;
        if gw.rpc.Some? && gw.upsert.Some? then Attempt(stored, Err(gw.upsert.value))
        else Attempt(stored + [RefreshSession], gw.refreshed)
  }

  datatype ProfileRun = ProfileRun(states: seq<AuthState>, calls: seq<ProfileCall>, reply: Option<string>)

  /** The profile update succeeds when a user is signed in, the metadata update
      goes through, the profile row is written by the procedure or else by the
      fallback, and the session refresh returns. */
  predicate ProfileSaved(gw: ProfileGateway) {
    gw.currentUser.Some? && gw.updateUser.None? && (gw.rpc.Some? ==> gw.upsert.None?) && gw.refreshed.Ok?
  }

  /** `updateProfile`; `now` is the timestamp the fallback upsert stamps. */
  function UpdateProfile(s: AuthState, updates: ProfileUpdates, gw: ProfileGateway, now: string): (run: ProfileRun)
    ensures Bracketed(s, run.states)
    ensures run.reply.None? <==> ProfileSaved(gw)
    ensures ProfileSaved(gw) ==> After(s, run.states) == s.(session := gw.refreshed.value, isLoading := false, error := None)
    ensures run.reply.Some? ==> After(s, run.states) == s.(isLoading := false, error := run.reply)
    ensures gw.currentUser.None? ==> run.calls == [] && run.reply == Some(NoUserMessage)
    ensures gw.currentUser.Some? ==> |run.calls| >= 1 && run.calls[0] == UpdateMetadata(UpdateData(updates))
    ensures gw.currentUser.Some? && gw.updateUser.None? ==>
              |run.calls| >= 2 && run.calls[1] == CallProfileRpc(ProfileRpcArgs(gw.currentUser.value.id, UpdateData(updates)))
    ensures forall i :: 0 <= i < |run.calls| && run.calls[i].UpsertProfile? ==>
              gw.rpc.Some? && run.calls[i].row == ProfileRow(gw.currentUser.value.id, UpdateData(updates), now)
    ensures gw.currentUser.Some? && gw.updateUser.None? && gw.rpc.Some? ==>
              |run.calls| >= 3 && run.calls[2].UpsertProfile?
    ensures gw.currentUser.Some? && gw.updateUser.Some? ==>
              run.reply == gw.updateUser && run.calls == [UpdateMetadata(UpdateData(updates))]
    ensures gw.currentUser.Some? && gw.updateUser.None? && gw.rpc.Some? && gw.upsert.Some? ==>
              run.reply == gw.upsert && |run.calls| == 3
    ensures gw.currentUser.Some? && gw.updateUser.None? && (gw.rpc.Some? ==> gw.upsert.None?) ==>
              && |run.calls| == (if gw.rpc.Some? then 4 else 3)
              && run.calls[|run.calls| - 1] == RefreshSession
              && (gw.refreshed.Err? ==> run.reply == Some(gw.refreshed.message))
  {
    var attempt := ProfileCalls(updates, gw, now);
    match attempt.result
    case Ok(session) => ProfileRun(Conclude(s, Ok(Begin(s).(session := session))), attempt.calls, None)
    case Err(msg) => ProfileRun(Conclude(s, Err(msg)), attempt.calls, Some(msg))
  }

  /** The metadata update and the procedure disagree on falsy values: an empty
      name reaches the metadata as `""` but the procedure as `null`, while an empty
      medication list is truthy and reaches both. */
  lemma FalsyValuesBecomeNull(userId: string, u: ProfileUpdates)
    requires u.fullName == Some("") && u.medications == Some([])
    ensures UpdateData(u)[FullName] == Text("")
    ensures ProfileRpcArgs(userId, UpdateData(u)).args[FullName].None?
    ensures ProfileRpcArgs(userId, UpdateData(u)).args[Medications] == Some(List([]))
  {
    assert Requested(u, FullName).Some? && Requested(u, Medications).Some?;
  }
}
