/** The forgotten-password flow: the transition table of
    src/main/webapp/WEB-INF/webflow/forget/forget-webflow.xml over the actions of
    src/main/java/org/jasig/cas/web/flow/ForgetAction.java. */
module ForgetFlow {
  import opened Basics

  // ----- the transition table -----

  datatype StateId =
    | Chose
    | ViewForgetEmailPage | CheckUserNameAndEmail | SendConfirmEmail
    | ViewForgetPhonePage | CheckUserNameAndPhone | ViewSendConfirmSMS | ConfirmSMS
    | ViewChangePage | ChangePassword | ViewResult

  /** What a state yields: a decision, the event of an action, or one the user signals. */
  datatype Outcome = Then | Else | Success | Fail | Phone | Email | Submit | Send

  function Next(s: StateId, o: Outcome): Option<StateId> {
    match (s, o)
    case (Chose, Then) => Some(ViewChangePage)
    case (Chose, Else) => Some(ViewForgetPhonePage)
    case (ViewForgetEmailPage, Phone) => Some(ViewForgetPhonePage)
    case (ViewForgetEmailPage, Submit) => Some(CheckUserNameAndEmail)
    case (CheckUserNameAndEmail, Then) => Some(SendConfirmEmail)
    case (CheckUserNameAndEmail, Else) => Some(ViewForgetEmailPage)
    case (SendConfirmEmail, Success) => Some(ViewResult)
    case (SendConfirmEmail, Fail) => Some(ViewForgetEmailPage)
    case (ViewForgetPhonePage, Email) => Some(ViewForgetEmailPage)
    case (ViewForgetPhonePage, Submit) => Some(CheckUserNameAndPhone)
    case (CheckUserNameAndPhone, Then) => Some(ViewSendConfirmSMS)
    case (CheckUserNameAndPhone, Else) => Some(ViewForgetPhonePage)
    case (ViewSendConfirmSMS, Send) => Some(ViewSendConfirmSMS)
    case (ViewSendConfirmSMS, Submit) => Some(ConfirmSMS)
    case (ConfirmSMS, Then) => Some(ViewChangePage)
    case (ConfirmSMS, Else) => Some(ViewSendConfirmSMS)
    case (ViewChangePage, Submit) => Some(ChangePassword)
    case (ChangePassword, Success) => Some(ViewResult)
    case (ChangePassword, Fail) => Some(ViewChangePage)
    case _ => None
  }

  /** Where a sequence of outcomes leads, each from the state that the one before led to. */
  function Along(s: StateId, os: seq<Outcome>): Option<StateId> {
    if os == [] then Some(s)
    else match Along(s, os[..|os| - 1]) case Some(t) => Next(t, os[|os| - 1]) case None => None
  }

  predicate IsDecision(s: StateId) {
    s.Chose? || s.CheckUserNameAndEmail? || s.CheckUserNameAndPhone? || s.ConfirmSMS?
  }

  /** A decision has its two answers, an action its two events, a page its buttons, the end nothing. */
  lemma TransitionsOf(s: StateId, o: Outcome)
    ensures Next(s, o).Some? <==>
      if IsDecision(s) then o in {Then, Else}
      else if s == SendConfirmEmail || s == StateId.ChangePassword then o in {Success, Fail}
      else if IsView(s) then o == Submit || (o == Phone && s.ViewForgetEmailPage?)
                             || (o == Email && s.ViewForgetPhonePage?) || (o == Send && s.ViewSendConfirmSMS?)
      else false
  {
  }

  /** What is submitted on a page and found wrong leads back to that page, from every action on the way;
      a link without a valid code, to the first page. */
  lemma WrongLeadsBack(page: StateId)
    requires IsView(page)
    ensures var bad := if page.ViewChangePage? then Fail else Else;
      Along(page, [Submit, bad]) == Some(page)
    ensures page.ViewForgetEmailPage? ==> Along(page, [Submit, Then, Fail]) == Some(page)
    ensures Along(Chose, [Else]) == Some(ViewForgetPhonePage)
  {
    var bad := if page.ViewChangePage? then Fail else Else;
    AlongTwo(page, Submit, bad);
    AlongThree(page, Submit, Then, Fail);
    AlongOne(Chose, Else);
  }

  /** The ways to the end: by link, by mail, and by text message. */
  lemma RightLeadsOn()
    ensures Along(Chose, [Then, Submit, Success]) == Some(ViewResult)
    ensures Along(ViewForgetEmailPage, [Submit, Then, Success]) == Some(ViewResult)
    ensures Along(ViewForgetPhonePage, [Submit, Then, Submit]) == Some(ConfirmSMS)
    ensures Along(ConfirmSMS, [Then, Submit, Success]) == Some(ViewResult)
  {
    AlongThree(Chose, Then, Submit, Success);
    AlongThree(ViewForgetEmailPage, Submit, Then, Success);
    AlongThree(ViewForgetPhonePage, Submit, Then, Submit);
    AlongThree(ConfirmSMS, Then, Submit, Success);
  }

  /** The two first pages lead to each other, and a code can be sent again. */
  lemma OtherButtons()
    ensures Along(ViewForgetEmailPage, [Phone, Email]) == Some(ViewForgetEmailPage)
    ensures Along(ViewForgetPhonePage, [Email, Phone]) == Some(ViewForgetPhonePage)
    ensures Along(ViewSendConfirmSMS, [Send]) == Some(ViewSendConfirmSMS)
  {
    AlongTwo(ViewForgetEmailPage, Phone, Email);
    AlongTwo(ViewForgetPhonePage, Email, Phone);
    AlongOne(ViewSendConfirmSMS, Send);
  }

  /** The password page has three ways in: a link that is valid, a code that is right, and itself. */
  lemma WaysToChangePage(s: StateId, o: Outcome)
    ensures Next(s, o) == Some(ViewChangePage) <==>
      (s.Chose? && o == Then) || (s.ConfirmSMS? && o == Then) || (s == StateId.ChangePassword && o == Fail)
  {
  }

  lemma AlongOne(s: StateId, o: Outcome)
    ensures Along(s, [o]) == Next(s, o)
  {
    assert [o][..0] == [];
  }

  lemma AlongTwo(s: StateId, o: Outcome, u: Outcome)
    ensures Along(s, [o, u]) == match Next(s, o) case Some(t) => Next(t, u) case None => None
  {
    assert [o, u][..1] == [o];
    AlongOne(s, o);
  }

  lemma AlongThree(s: StateId, o: Outcome, u: Outcome, v: Outcome)
    ensures Along(s, [o, u, v]) == match Along(s, [o, u]) case Some(t) => Next(t, v) case None => None
    ensures Along(s, [o, u]) == match Next(s, o) case Some(t) => Next(t, u) case None => None
  {
    assert [o, u, v][..2] == [o, u];
    AlongTwo(s, o, u);
  }

  predicate IsView(s: StateId) {
    s.ViewForgetEmailPage? || s.ViewForgetPhonePage? || s.ViewSendConfirmSMS? || s.ViewChangePage?
  }

  // ----- requests and what lies outside -----

  datatype Param = PUsername | PEmail | PPhone | PU | PV | PCode | PPassword | PRepeat | PUrl

  type Params = map<Param, string>

  function Get(ps: Params, p: Param): Option<string> { if p in ps then Some(ps[p]) else None }

  /** Results of the calls that leave the action during one step: the user directory, the mail
      sender, the generators of codes, and two readings of the clock. */
  datatype MailResult = Sent | ThrewEarly | ThrewLate
  datatype ResetResult = Done | Refused | Threw | DeleteThrew
  datatype World = World(known: bool, mail: MailResult, reset: ResetResult, code: string, early: int, late: int)

  const SMS_LIMIT := 2 * 60 * 1000

  predicate IsEmpty(s: Option<string>) { s.None? || s.value == "" }

  predicate Digits(s: string) { forall i :: 0 <= i < |s| ==> '0' <= s[i] <= '9' }

  /** \d+, .*@.* and \d{11}; a dot matches no line terminator. */
  predicate UsernameLike(s: string) { s != "" && Digits(s) }
  predicate EmailLike(s: string) {
    '@' in s && '\n' !in s && '\r' !in s && '\U{0085}' !in s && '\U{2028}' !in s && '\U{2029}' !in s
  }
  predicate PhoneLike(s: string) { |s| == 11 && Digits(s) }

  /** Key of a user's code in the store, prefix included. */
  function Key(username: string): string { "forget_pwd_" + username }

  lemma KeysDiffer(u: string, v: string)
    ensures Key(u) == Key(v) <==> u == v
  {
    assert Key(u)[11..] == u && Key(v)[11..] == v;
  }

  datatype Check = Check(user: string, value: string)
  /** Some comparison for this user has come out equal. */
  ghost predicate Checked(checks: seq<Check>, user: string) {
    exists k :: 0 <= k < |checks| && checks[k].user == user
  }

  lemma CheckedGrows(checks: seq<Check>, more: seq<Check>, user: string)
    requires Checked(checks, user) && checks <= more
    ensures Checked(more, user)
  {
    var k :| 0 <= k < |checks| && checks[k].user == user;
    assert more[k].user == user;
  }

  datatype Reset = Reset(user: string, password: string)
  datatype Sms = Sms(time: int, phone: string, code: string)
  /** No text is later than clock, and two in a row are at least two minutes apart. */
  ghost predicate Spaced(texts: seq<Sms>, clock: int) {
    && (forall i :: 0 <= i < |texts| ==> texts[i].time <= clock)
    && (forall i :: 0 <= i < |texts| - 1 ==> texts[i + 1].time - texts[i].time >= 120000)
  }

  /** What a later clock and one more text leave of the spacing. */
  lemma TextSpaced(texts: seq<Sms>, clock: int, sms: Sms)
    requires Spaced(texts, clock) && clock <= sms.time
    ensures Spaced(texts, sms.time)
    ensures texts == [] || sms.time - texts[|texts| - 1].time >= SMS_LIMIT ==> Spaced(texts + [sms], sms.time)
  {
  }

  datatype Mail = Mail(to: string, user: string, code: string)

  class Flow {
    var state: StateId
    /** Flow scope. */
    var username: Option<string>
    var email: Option<string>
    var phone: Option<string>
    var url: Option<string>
    var lastSms: Option<int>
    /** The code store, shared with all other flows and subject to expiry. */
    var store: map<string, string>
    /** Calls to the outside, in order. */
    var texts: seq<Sms>
    var mails: seq<Mail>
    var resets: seq<Reset>
    /** Set when a flow-scope field read without a null check is missing. */
    var crashed: bool
    /** Comparisons of a submitted value with the stored one that came out equal. */
    ghost var checks: seq<Check>
    ghost var clock: int

    ghost predicate Valid()
      reads this
    {
      Good() && Fits(state)
    }

    /** What holds in every state: every reset was for a user compared equal in this run. */
    ghost predicate Good()
      reads this
    {
      && !crashed
      && (forall i :: 0 <= i < |resets| ==> Checked(checks, resets[i].user))
      && lastSms == (if texts == [] then None else Some(texts[|texts| - 1].time))
      && Spaced(texts, clock)
    }

    /** What state s finds in flow scope. */
    ghost predicate Fits(s: StateId)
      reads this
    {
      && (s.SendConfirmEmail? ==> !IsEmpty(username) && !IsEmpty(email))
      && (s.ViewSendConfirmSMS? || s.ConfirmSMS? ==> !IsEmpty(username) && !IsEmpty(phone))
      && (s.ViewChangePage? || s.ChangePassword? ==> LastChecked())
    }

    /** The user in flow scope is the one of the latest successful comparison. */
    ghost predicate LastChecked()
      reads this
    {
      !IsEmpty(username) && checks != [] && checks[|checks| - 1].user == username.value
    }

    constructor (store: map<string, string>, ps: Params)
      ensures Valid() && state == Chose && checks == [] && resets == [] && texts == [] && this.store == store
    {
      state, crashed := Chose, false;
      username, email, phone, url, lastSms := None, None, None, None, None;
      this.store, texts, mails, resets, checks, clock := store, [], [], [], [], 0;
      new;
      SetURL(ps);
    }

    /** Expiry, and what other flows do to the store. */
    method Outside(changed: map<string, string>)
      requires Valid()
      modifies this`store
      ensures Valid() && store == changed
    {
      store := changed;
    }

    // ----- actions -----

    method SetURL(ps: Params)
      modifies this`url
      ensures url == if old(url).None? then Get(ps, PUrl) else old(url)
    {
      if url.None? && PUrl in ps {
        url := Some(ps[PUrl]);
      }
    }

    method CheckUsernameAndEmail(ps: Params, w: World) returns (r: bool)
      modifies this`username, this`email
      ensures r <==> PUsername in ps && PEmail in ps && ps[PUsername] != "" && Digits(ps[PUsername])
                     && EmailLike(ps[PEmail]) && w.known
      ensures r ==> username == Some(ps[PUsername]) && email == Some(ps[PEmail]) && ps[PEmail] != ""
      ensures !r ==> username == old(username) && email == old(email)
    {
      var u, e := Get(ps, PUsername), Get(ps, PEmail);
      r := false;
      if IsEmpty(u) || IsEmpty(e) {
      } else if !UsernameLike(u.value) {
      } else if !EmailLike(e.value) {
      } else {
        r := w.known;
        if r {
          username, email := u, e;
        }
      }
    }

    method CheckUsernameAndPhone(ps: Params, w: World) returns (r: bool)
      modifies this`username, this`phone
      ensures r <==> PUsername in ps && PPhone in ps && ps[PUsername] != "" && Digits(ps[PUsername])
                     && |ps[PPhone]| == 11 && Digits(ps[PPhone]) && w.known
      ensures r ==> username == Some(ps[PUsername]) && phone == Some(ps[PPhone])
      ensures !r ==> username == old(username) && phone == old(phone)
    {
      var u, p := Get(ps, PUsername), Get(ps, PPhone);
      r := false;
      if IsEmpty(u) || IsEmpty(p) {
      } else if !UsernameLike(u.value) {
      } else if !PhoneLike(p.value) {
      } else {
        r := w.known;
        if r {
          username, phone := u, p;
        }
      }
    }

    /** The event success or fail; username and email are read without a null check. */
    method SendConfirmMail(w: World) returns (o: Outcome)
      modifies this`store, this`mails, this`crashed
      ensures crashed == (old(crashed) || username.None? || email.None?)
      ensures o == Success <==> !IsEmpty(username) && !IsEmpty(email) && w.mail.Sent?
      ensures o == Success || o == Fail
      ensures !IsEmpty(username) && !IsEmpty(email) && !w.mail.ThrewEarly? ==> store == old(store)[Key(username.value) := w.code]
      ensures IsEmpty(username) || IsEmpty(email) || w.mail.ThrewEarly? ==> store == old(store)
      ensures mails == old(mails) + if o == Success then [Mail(email.value, username.value, w.code)] else []
    {
      o := Fail;
      if username.None? || email.None? {
        crashed := true;
        return;
      }
      if IsEmpty(username) || IsEmpty(email) {
      } else {
        if w.mail != ThrewEarly {
          store := store[Key(username.value) := w.code];
          if w.mail != ThrewLate {
            mails := mails + [Mail(email.value, username.value, w.code)];
            o := Success;
          }
        }
      }
    }

    /** At most one text in two minutes: the clock is read before and after the code is stored. */
    method SendConfirmSMS(w: World)
      requires w.early <= w.late
      modifies this`store, this`texts, this`lastSms
      ensures var sends := !IsEmpty(username) && !IsEmpty(phone) &&
          (old(lastSms).None? || w.early - old(lastSms).value >= SMS_LIMIT);
        if sends
        then store == old(store)[Key(username.value) := w.code] && lastSms == Some(w.late)
             && texts == old(texts) + [Sms(w.late, phone.value, w.code)]
        else store == old(store) && lastSms == old(lastSms) && texts == old(texts)
    {
      if IsEmpty(username) || IsEmpty(phone) {
        return;
      }
      if lastSms.Some? && w.early - lastSms.value < SMS_LIMIT {
        return;
      }
      store := store[Key(username.value) := w.code];
      lastSms := Some(w.late);
      texts := texts + [Sms(w.late, phone.value, w.code)];
    }

    method ValidateConfirmURL(ps: Params) returns (r: bool)
      modifies this`username, this`checks
      ensures r <==> PU in ps && PV in ps && ps[PU] != "" && ps[PV] != "" && Stored(store, ps[PU]) == Some(ps[PV])
      ensures r ==> username == Some(ps[PU]) && checks == old(checks) + [Check(ps[PU], ps[PV])]
      ensures !r ==> username == old(username) && checks == old(checks)
    {
      var u, v := Get(ps, PU), Get(ps, PV);
      r := false;
      if !IsEmpty(u) && !IsEmpty(v) {
        var uuid := Stored(store, u.value);
        if !IsEmpty(uuid) && v == uuid {
          checks := checks + [Check(u.value, v.value)];
          username := u;
          r := true;
        }
      }
    }

    method ValidateSMS(ps: Params) returns (r: bool)
      modifies this`checks
      ensures r <==> !IsEmpty(username) && !IsEmpty(phone) && PCode in ps && ps[PCode] != ""
                     && Stored(store, username.value) == Some(ps[PCode])
      ensures checks == old(checks) + if r then [Check(username.value, ps[PCode])] else []
    {
      var code := Get(ps, PCode);
      r := false;
      if IsEmpty(username) || IsEmpty(phone) {
      } else if IsEmpty(code) {
      } else {
        var realCode := Stored(store, username.value);
        if IsEmpty(realCode) {
        } else if realCode != code {
        } else {
          checks := checks + [Check(username.value, code.value)];
          r := true;
        }
      }
    }

    /** username is read without a null check; a reset that succeeds removes the stored code. */
    method ChangePassword(ps: Params, w: World) returns (o: Outcome)
      modifies this`store, this`resets, this`crashed
      ensures crashed == (old(crashed) || username.None?)
      ensures o == Success || o == Fail
      ensures var calls := !IsEmpty(username) && PPassword in ps && PRepeat in ps && ps[PPassword] != "" && ps[PPassword] == ps[PRepeat];
        && (o == Success <==> calls && w.reset.Done?)
        && resets == old(resets) + if calls then [Reset(username.value, ps[PPassword])] else []
      ensures store == if o == Success then old(store) - {Key(username.value)} else old(store)
    {
      o := Fail;
      if username.None? {
        crashed := true;
        return;
      }
      var pwd, again := Get(ps, PPassword), Get(ps, PRepeat);
      if IsEmpty(username) {
      } else if IsEmpty(pwd) || IsEmpty(again) {
      } else if pwd != again {
      } else {
        resets := resets + [Reset(username.value, pwd.value)];
        if w.reset == Done {
          store := store - {Key(username.value)};
          o := Success;
        }
      }
    }

    // ----- the flow -----

    /** Enters a state: its on-entry action. */
    method Enter(s: StateId, ps: Params, w: World)
      requires Good() && Fits(s) && clock <= w.early <= w.late
      modifies this`state, this`url, this`store, this`texts, this`lastSms, this`clock
      ensures Valid() && state == s && clock == w.late
      ensures s != ViewSendConfirmSMS ==> store == old(store) && texts == old(texts)
      ensures s == ViewSendConfirmSMS ==>
        if old(lastSms).None? || w.early - old(lastSms).value >= SMS_LIMIT
        then texts == old(texts) + [Sms(w.late, phone.value, w.code)] && store == old(store)[Key(username.value) := w.code]
        else texts == old(texts) && store == old(store)
    {
      if s == ViewSendConfirmSMS {
        TextSpaced(texts, clock, Sms(w.late, phone.value, w.code));
      }
      state, clock := s, w.late;
      if s == ViewSendConfirmSMS {
        SendConfirmSMS(w);
      } else if s in {Chose, ViewForgetEmailPage, CheckUserNameAndPhone} {
        SetURL(ps);
      }
    }

    /** The action of a decision state, by its answer. */
    method Decide(ps: Params, w: World) returns (o: Outcome)
      requires Valid() && state in {Chose, CheckUserNameAndEmail, CheckUserNameAndPhone, ConfirmSMS}
      modifies this`username, this`email, this`phone, this`checks
      ensures (o == Then || o == Else) && Next(state, o).Some? && Fits(Next(state, o).value)
      ensures checks == old(checks) || (|checks| == |old(checks)| + 1 && old(checks) <= checks)
      ensures Next(state, o) == Some(ViewChangePage) ==> |checks| == |old(checks)| + 1
    {
      var b;
      match state {
        case Chose => b := ValidateConfirmURL(ps);
        case CheckUserNameAndEmail => b := CheckUsernameAndEmail(ps, w);
        case CheckUserNameAndPhone => b := CheckUsernameAndPhone(ps, w);
        case ConfirmSMS => b := ValidateSMS(ps);
      }
      o := if b then Then else Else;
    }

    /** The action of a state that does not wait for the user. */
    method Evaluate(ps: Params, w: World) returns (o: Outcome)
      requires Valid() && !IsView(state) && state != ViewResult
      modifies this`username, this`email, this`phone, this`store, this`mails, this`resets, this`checks, this`crashed
      ensures Next(state, o).Some? && Good() && Fits(Next(state, o).value)
      ensures old(checks) <= checks && old(resets) <= resets
      ensures Next(state, o) == Some(ViewChangePage) ==> state.ChangePassword? || |checks| == |old(checks)| + 1
      ensures |resets| > |old(resets)| ==>
        && state.ChangePassword? && |resets| == |old(resets)| + 1
        && old(checks) != [] && resets[|old(resets)|].user == old(checks)[|old(checks)| - 1].user
      ensures state.ChangePassword? ==> username.Some? && username == old(username) && checks == old(checks)
      ensures state.ChangePassword? && Next(state, o) == Some(ViewResult) ==> Stored(store, username.value).None?
    {
      if state == SendConfirmEmail {
        o := SendConfirmMail(w);
      } else if state == StateId.ChangePassword {
        o := ChangePassword(ps, w);
      } else {
        o := Decide(ps, w);
      }
      ResetsChecked(old(resets), resets, old(checks), checks);
    }

    /** A view state takes the user's event; without a transition for it nothing happens. */
    method Signal(event: Outcome, ps: Params, w: World)
      requires Valid() && IsView(state) && clock <= w.early <= w.late
      modifies this
      ensures Valid() && clock == w.late
      ensures checks == old(checks) && resets == old(resets) && username == old(username)
      ensures state == if Next(old(state), event).Some? then Next(old(state), event).value else old(state)
    {
      var target := Next(state, event);
      if target.Some? {
        Enter(target.value, ps, w);
      } else {
        clock := w.late;
      }
    }

    /** Any other state runs its action and goes on. */
    method Proceed(ps: Params, w: World)
      requires Valid() && !IsView(state) && state != ViewResult && clock <= w.early <= w.late
      modifies this
      ensures Valid() && clock == w.late
      ensures old(checks) <= checks && old(resets) <= resets
      // a reset comes from the password page only, for the user compared last, who stays in scope
      ensures |resets| > |old(resets)| ==>
        && old(state).ChangePassword? && |resets| == |old(resets)| + 1
        && old(checks) != [] && resets[|old(resets)|].user == old(checks)[|old(checks)| - 1].user
      ensures old(state).ChangePassword? ==> username.Some? && username == old(username) && checks == old(checks)
      // the password page is reached by a comparison that came out equal, or from a failed reset
      ensures state.ViewChangePage? ==> old(state).ChangePassword? || |checks| == |old(checks)| + 1
      // a reset that ends the flow has removed the stored code
      ensures old(state).ChangePassword? && state.ViewResult? ==> Stored(store, username.value).None?
    {
      var o := Evaluate(ps, w);
      Enter(Next(state, o).value, ps, w);
    }
  }

  /** Resets stay covered by checks when at most one is added, for a user just covered. */
  lemma ResetsChecked(before: seq<Reset>, resets: seq<Reset>, early: seq<Check>, checks: seq<Check>)
    requires forall i :: 0 <= i < |before| ==> Checked(early, before[i].user)
    requires before <= resets && early <= checks
    requires |resets| > |before| ==> |resets| == |before| + 1 && Checked(early, resets[|before|].user)
    ensures forall i :: 0 <= i < |resets| ==> Checked(checks, resets[i].user)
  {
    forall i | 0 <= i < |resets| ensures Checked(checks, resets[i].user) {
      assert i < |before| ==> resets[i] == before[i];
      CheckedGrows(early, checks, resets[i].user);
    }
  }

  function Stored(store: map<string, string>, user: string): Option<string> {
    if Key(user) in store then Some(store[Key(user)]) else None
  }
}
