/**
 * The notification sender: destination normalisation, the SMS and voice
 * texts, the method dispatch and the error-to-result contract. The carrier is
 * an oracle: a function from the request the sender would submit to the
 * carrier's answer.
 */
module Notifier {
  import opened Wrappers
  import opened Schema

  /** The three environment settings the sender reads. */
  datatype Credentials = Credentials(accountSid: Option<string>, authToken: Option<string>, fromNumber: Option<string>)

  /** What the sender submits to the carrier. */
  datatype Request =
    | SmsRequest(body: string, from: string, to: string)
    | CallRequest(twiml: string, from: string, to: string)

  /** The carrier's answer: a message or call identifier, or the error it raised. */
  datatype Delivery = Accepted(sid: string) | Refused(message: string)

  /** `{success: true, messageSid}`, `{success: true, callSid}` or `{success: false, error}`. */
  datatype SendResult = SmsSent(messageSid: string) | CallPlaced(callSid: string) | SendFailed(error: string) {
    predicate Success() {
      !SendFailed?
    }
  }

  const MissingCredentialsError: string := "Missing Twilio credentials: TWILIO_ACCOUNT_SID and TWILIO_AUTH_TOKEN required"
  const MissingFromNumberError: string := "Missing TWILIO_PHONE_NUMBER"
  const InvalidMethodError: string := "Invalid notification method"

  /** `/^1\d{10}$/`: eleven digits starting with the North American country code. */
  predicate HasCountryCodeOne(s: string) {
    |s| == 11 && s[0] == '1' && AllDigits(s[1..])
  }

  /** The destination as dialled: `+` kept, a leading 1 prefixed with `+`, anything else with `+1`. */
  function FormatPhone(to: string): (r: string)
    ensures |r| > 0 && r[0] == '+'
    ensures |to| <= |r| <= |to| + 2 && r[|r| - |to|..] == to
  {
    if |to| > 0 && to[0] == '+' then to
    else if HasCountryCodeOne(to) then "+" + to
    else "+1" + to
  }

  /** Normalising an already normalised number changes nothing. */
  lemma FormatPhoneIdempotent(to: string)
    ensures FormatPhone(FormatPhone(to)) == FormatPhone(to)
  {
  }

  /** A number that already starts with `+` is dialled as given. */
  lemma FormatPhoneKeepsPlus(to: string)
    requires |to| > 0 && to[0] == '+'
    ensures FormatPhone(to) == to
  {
  }

  /** Eleven digits starting with 1 already carry the country code and get only `+`. */
  lemma FormatPhoneCountryCode(to: string)
    requires HasCountryCodeOne(to)
    ensures FormatPhone(to) == "+" + to
  {
  }

  /** Any other number gets `+1` in front. */
  lemma FormatPhoneOtherwise(to: string)
    requires !(|to| > 0 && to[0] == '+') && !HasCountryCodeOne(to)
    ensures FormatPhone(to) == "+1" + to
  {
  }

  /** A bare ten-digit number gets the `+1` prefix. */
  lemma FormatPhoneTenDigits(to: string)
    requires |to| == 10 && AllDigits(to)
    ensures FormatPhone(to) == "+1" + to
  {
  }

  /** An accepted phone number becomes `+` followed by digits only, with at most 17 characters. */
  lemma FormatAcceptedPhone(to: string)
    requires PhoneAccepted(to)
    ensures var r := FormatPhone(to); |r| <= 17 && AllDigits(r[1..])
  {
    PhoneAcceptedShape(to);
    var r := FormatPhone(to);
    var k := |r| - |to|;
    assert r[k..] == to;
    forall i | 1 <= i < |r| ensures IsDigit(r[i]) {
      if i >= k {
        assert r[i] == to[i - k];
      } else {
        assert r[..2] == "+1";
        assert r[i] == '1';
      }
    }
    assert forall i :: 0 <= i < |r[1..]| ==> r[1..][i] == r[i + 1];
  }

  /** `QA Reminder: <title>`, then a blank line and the description when there is one. */
  function SmsBody(title: string, description: Option<string>): (r: string)
    ensures Truthy(description) ==> r == "QA Reminder: " + title + "\n\n" + description.value
    ensures !Truthy(description) ==> r == "QA Reminder: " + title
  {
    var message := "QA Reminder: " + title;
    if Truthy(description) then message + "\n\n" + description.value else message
  }

  /** `This is a Q A reminder for: <title>.`, then ` Additional details: <description>` when there is one. */
  function VoiceText(title: string, description: Option<string>): (r: string)
    ensures Truthy(description) ==> r == "This is a Q A reminder for: " + title + "." + " Additional details: " + description.value
    ensures !Truthy(description) ==> r == "This is a Q A reminder for: " + title + "."
  {
    var voiceMessage := "This is a Q A reminder for: " + title + ".";
    if Truthy(description) then voiceMessage + " Additional details: " + description.value else voiceMessage
  }

  /** The TwiML document the call reads out. */
  function Twiml(voiceMessage: string): string {
    "<Response><Say voice=\"alice\">" + voiceMessage + "</Say></Response>"
  }

  /** The credentials check of `getTwilioClient` and `getTwilioFromPhoneNumber`, in that order. */
  function CredentialsError(c: Credentials): (r: Option<string>)
    ensures r.None? <==> Truthy(c.accountSid) && Truthy(c.authToken) && Truthy(c.fromNumber)
  {
    if !Truthy(c.accountSid) || !Truthy(c.authToken) then Some(MissingCredentialsError)
    else if !Truthy(c.fromNumber) then Some(MissingFromNumberError)
    else None
  }

  /** The request the SMS path submits, given the sender number. */
  function SmsRequestFor(from: string, to: string, title: string, description: Option<string>): Request {
    SmsRequest(SmsBody(title, description), from, FormatPhone(to))
  }

  /** The request the voice path submits, given the sender number. */
  function CallRequestFor(from: string, to: string, title: string, description: Option<string>): Request {
    CallRequest(Twiml(VoiceText(title, description)), from, FormatPhone(to))
  }

  /** `sendReminderSMS`: every error, missing settings included, becomes a failed result. */
  function SendReminderSms(c: Credentials, carrier: Request -> Delivery, to: string, title: string, description: Option<string>): (r: SendResult)
    ensures !r.CallPlaced?
    ensures CredentialsError(c).Some? ==> r == SendFailed(CredentialsError(c).value)
    ensures CredentialsError(c).None? ==>
      match carrier(SmsRequestFor(c.fromNumber.value, to, title, description))
      case Accepted(sid) => r == SmsSent(sid)
      case Refused(e) => r == SendFailed(e)
  {
    match CredentialsError(c)
    case Some(e) => SendFailed(e)
    case None =>
      match carrier(SmsRequestFor(c.fromNumber.value, to, title, description))
      case Accepted(sid) => SmsSent(sid)
      case Refused(e) => SendFailed(e)
  }

  /** `makeReminderCall`: the same contract as the SMS path, for a voice call. */
  function MakeReminderCall(c: Credentials, carrier: Request -> Delivery, to: string, title: string, description: Option<string>): (r: SendResult)
    ensures !r.SmsSent?
    ensures CredentialsError(c).Some? ==> r == SendFailed(CredentialsError(c).value)
    ensures CredentialsError(c).None? ==>
      match carrier(CallRequestFor(c.fromNumber.value, to, title, description))
      case Accepted(sid) => r == CallPlaced(sid)
      case Refused(e) => r == SendFailed(e)
  {
    match CredentialsError(c)
    case Some(e) => SendFailed(e)
    case None =>
      match carrier(CallRequestFor(c.fromNumber.value, to, title, description))
      case Accepted(sid) => CallPlaced(sid)
      case Refused(e) => SendFailed(e)
  }

  /** `sendReminder`: `sms` and `call` go to their paths; any other method fails without a carrier call. */
  function SendReminder(c: Credentials, carrier: Request -> Delivery, to: string, title: string, description: Option<string>, via: string): (r: SendResult)
    ensures via == MethodSms ==> r == SendReminderSms(c, carrier, to, title, description)
    ensures via == MethodCall ==> r == MakeReminderCall(c, carrier, to, title, description)
    ensures !IsNotificationMethod(via) ==> r == SendFailed(InvalidMethodError)
  {
    if via == MethodSms then SendReminderSms(c, carrier, to, title, description)
    else if via == MethodCall then MakeReminderCall(c, carrier, to, title, description)
    else SendFailed(InvalidMethodError)
  }

  /** The send succeeds exactly when the settings are present, the method is known and the carrier accepts. */
  lemma SendReminderSucceeds(c: Credentials, carrier: Request -> Delivery, to: string, title: string, description: Option<string>, via: string)
    ensures SendReminder(c, carrier, to, title, description, via).Success() <==>
      && IsNotificationMethod(via)
      && CredentialsError(c).None?
      && carrier(if via == MethodSms then SmsRequestFor(c.fromNumber.value, to, title, description)
                 else CallRequestFor(c.fromNumber.value, to, title, description)).Accepted?
  {
  }

  /** No carrier is consulted for an unknown via: any two carriers give the same result. */
  lemma InvalidMethodIgnoresCarrier(c: Credentials, c': Credentials, carrier: Request -> Delivery, carrier': Request -> Delivery,
                                    to: string, title: string, description: Option<string>, via: string)
    requires !IsNotificationMethod(via)
    ensures SendReminder(c, carrier, to, title, description, via) == SendReminder(c', carrier', to, title, description, via)
  {
  }

  /** Both paths dial the same normalised destination. */
  lemma PathsShareDestination(from: string, to: string, title: string, description: Option<string>)
    ensures SmsRequestFor(from, to, title, description).to == CallRequestFor(from, to, title, description).to == FormatPhone(to)
  {
  }
}
