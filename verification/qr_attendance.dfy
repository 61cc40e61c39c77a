/**
 * The state of the QR attendance component
 * (src/components/dashboard/QRAttendance.tsx) and the handlers that update
 * it. Each `useState` pair becomes a field; each handler a method. The
 * React scheduling (`useEffect`, `setInterval`) is replaced by a `Tick`
 * method that the caller invokes with the current time. What the component
 * renders decides which handlers can run at all: the role picks the teacher
 * or the student view, the student's scanner exists only while the camera
 * is open, and the success view replaces both the scanner and the camera
 * button. Each handler's precondition states when it is rendered.
 */
module QRAttendance {
  import opened Wrappers
  import opened AttendanceSession
  import SessionId

  datatype ScanStatus = Idle | Scanning | Success | Error

  /** The `userRole` prop: which of the two views the component renders. */
  datatype Role = Student | Teacher

  /** The class used when the `currentClass` prop is not given. */
  const DefaultClass := "Computer Science 101"

  /** An input of the student view: a scanned text, a camera failure, or a press of the camera button. */
  datatype StudentEvent = Scan(text: string, now: int) | CameraFailure | CameraButton

  const CameraErrorMessage := "Camera error. Please allow camera permissions."

  /** A session the teacher view can hold: issued for its own class with a clamped time-to-live. */
  predicate IssuedFor(p: Payload, currentClass: string)
  {
    currentClass != "" && p.className == currentClass
    && SessionId.IsSessionId(p.sessionId)
    && MinExpiryMinutes * MsPerMinute <= p.expiresAt - p.issuedAt <= MaxExpiryMinutes * MsPerMinute
  }

  class QRAttendanceView {
    const userRole: Role
    /** The `currentClass` prop: the class codes are issued for and scans are checked against. */
    const currentClass: string
    var expiryMinutes: int
    var payload: Option<Payload>
    var remaining: nat
    var scanStatus: ScanStatus
    var cameraOpen: bool
    var errorMsg: string

    /**
     * The time-to-live is always clamped; no handler ever sets `scanning`;
     * an error message is shown exactly in the error status; a held
     * session belongs to this class; a student view never holds a session,
     * and a teacher view never leaves the initial scan state.
     */
    ghost predicate Valid()
      reads this
    {
      MinExpiryMinutes <= expiryMinutes <= MaxExpiryMinutes
      && scanStatus != Scanning
      && (scanStatus == Error <==> errorMsg != "")
      && (payload.Some? ==> IssuedFor(payload.value, currentClass))
      && (userRole == Student ==> payload.None?)
      && (userRole == Teacher ==> scanStatus == Idle && !cameraOpen)
    }

    /**
     * The initial state of the `useState` hooks. A missing `currentClass`
     * prop (`None`) takes the default class; a given one, even the empty
     * text, is kept, as a JavaScript default parameter replaces only
     * `undefined`.
     */
    constructor (userRole: Role, classProp: Option<string>)
      ensures Valid() && this.userRole == userRole
      ensures currentClass == if classProp.None? then DefaultClass else classProp.value
      ensures expiryMinutes == 5 && payload == None && remaining == 0
      ensures scanStatus == Idle && !cameraOpen && errorMsg == ""
    {
      this.userRole := userRole;
      this.currentClass := if classProp.None? then DefaultClass else classProp.value;
      expiryMinutes := 5;
      payload := None;
      remaining := 0;
      scanStatus := Idle;
      cameraOpen := false;
      errorMsg := "";
    }

    /** The text shown in the QR code: the serialised session, or empty when there is none. */
    function QrValue(): (text: string)
      reads this
      ensures text == "" <==> payload.None?
      ensures payload.Some? ==> DecodePayload(text) == payload
    {
      match payload
      case None => ""
      case Some(p) =>
        DecodeEncode(p);
        Encode(p)
    }

    /** The expiry input's `onChange`: stores the clamped number of minutes. */
    method SetExpiryInput(input: Option<int>)
      requires Valid() && userRole == Teacher
      modifies this
      ensures Valid() && expiryMinutes == ClampExpiry(input)
      ensures payload == old(payload) && remaining == old(remaining)
      ensures scanStatus == old(scanStatus) && cameraOpen == old(cameraOpen) && errorMsg == old(errorMsg)
    {
      expiryMinutes := ClampExpiry(input);
    }

    /**
     * `generateQR` at time `now` with the random bytes of the new session id:
     * nothing happens without a class; otherwise the new session replaces
     * any previous one.
     */
    method GenerateQR(now: nat, random: seq<SessionId.byte>)
      requires Valid() && userRole == Teacher && |random| == SessionId.IdBytes
      modifies this
      ensures Valid()
      ensures currentClass == "" ==> payload == old(payload)
      ensures currentClass != "" ==> payload == Some(MakePayload(currentClass, random, now, expiryMinutes))
      ensures expiryMinutes == old(expiryMinutes) && remaining == old(remaining)
      ensures scanStatus == old(scanStatus) && cameraOpen == old(cameraOpen) && errorMsg == old(errorMsg)
    {
      if currentClass == "" {
        return;
      }
      payload := Some(MakePayload(currentClass, random, now, expiryMinutes));
    }

    /**
     * One run of the countdown `tick` at time `now`: without a session the
     * effect does nothing; otherwise it stores the whole seconds left and
     * clears the session once they reach 0.
     */
    method Tick(now: int)
      requires Valid()
      modifies this
      ensures Valid()
      ensures old(payload).None? ==> payload == None && remaining == old(remaining)
      ensures old(payload).Some? ==> remaining == Remaining(old(payload).value.expiresAt, now)
      ensures old(payload).Some? ==> payload == if remaining == 0 then None else old(payload)
      ensures expiryMinutes == old(expiryMinutes)
      ensures scanStatus == old(scanStatus) && cameraOpen == old(cameraOpen) && errorMsg == old(errorMsg)
    {
      if payload.None? {
        return;
      }
      var r := Remaining(payload.value.expiresAt, now);
      remaining := r;
      if r <= 0 {
        payload := None;
      }
    }

    /** The "Expires in m s" display of the remaining seconds. */
    function Countdown(): (ms: (nat, nat))
      reads this
      ensures 60 * ms.0 + ms.1 == remaining && ms.1 < 60
    {
      SplitCountdown(remaining)
    }

    /**
     * `handleDecode` of a scanned text at time `now`: on acceptance the
     * status becomes success, the message is cleared and the camera
     * closes; on a refusal the status becomes error with the refusal's
     * message and the camera is left as it was.
     */
    method HandleDecode(text: string, now: int)
      requires Valid() && userRole == Student
      modifies this
      ensures Valid()
      ensures Verify(text, currentClass, now) == Accepted ==>
        scanStatus == Success && errorMsg == "" && !cameraOpen
      ensures Verify(text, currentClass, now).Rejected? ==>
        scanStatus == Error && errorMsg == Message(Verify(text, currentClass, now).reason)
        && cameraOpen == old(cameraOpen)
      ensures expiryMinutes == old(expiryMinutes) && payload == old(payload) && remaining == old(remaining)
    {
      var verdict := Verify(text, currentClass, now);
      match verdict
      case Accepted =>
        scanStatus := Success;
        errorMsg := "";
        cameraOpen := false;
      case Rejected(reason) =>
        scanStatus := Error;
        errorMsg := Message(reason);
    }

    /** The scanner's `onScan` with the decoded text: an empty text is ignored. */
    method OnScan(text: string, now: int)
      requires Valid() && userRole == Student && scanStatus != Success && cameraOpen
      modifies this
      ensures Valid()
      ensures text == "" ==>
        scanStatus == old(scanStatus) && errorMsg == old(errorMsg) && cameraOpen == old(cameraOpen)
      ensures text == "" ==> unchanged(this)
      ensures text != "" && Verify(text, currentClass, now) == Accepted ==>
        scanStatus == Success && errorMsg == "" && !cameraOpen
      ensures text != "" && Verify(text, currentClass, now).Rejected? ==>
        scanStatus == Error && errorMsg == Message(Verify(text, currentClass, now).reason)
        && cameraOpen == old(cameraOpen)
      ensures expiryMinutes == old(expiryMinutes) && payload == old(payload) && remaining == old(remaining)
    {
      if text != "" {
        HandleDecode(text, now);
      }
    }

    /** The scanner's `onError`: shows the camera-permission message. */
    method OnCameraError()
      requires Valid() && userRole == Student && scanStatus != Success && cameraOpen
      modifies this
      ensures Valid() && scanStatus == Error && errorMsg == CameraErrorMessage
      ensures cameraOpen == old(cameraOpen)
      ensures expiryMinutes == old(expiryMinutes) && payload == old(payload) && remaining == old(remaining)
    {
      errorMsg := CameraErrorMessage;
      scanStatus := Error;
    }

    /** The camera button: opens or closes the camera and resets the scan status and message. */
    method ToggleCamera()
      requires Valid() && userRole == Student && scanStatus != Success
      modifies this
      ensures Valid()
      ensures cameraOpen == !old(cameraOpen) && scanStatus == Idle && errorMsg == ""
      ensures expiryMinutes == old(expiryMinutes) && payload == old(payload) && remaining == old(remaining)
    {
      cameraOpen := !cameraOpen;
      scanStatus := Idle;
      errorMsg := "";
    }

    /** Whether the element an event comes from is on screen: the scanner, or the camera button. */
    predicate Rendered(e: StudentEvent)
      reads this
    {
      userRole == Student && scanStatus != Success && (e.CameraButton? || cameraOpen)
    }

    /**
     * An input of the student view: handled when its element is rendered,
     * and with no effect otherwise. Hence a marked attendance (`success`)
     * is final.
     */
    method Dispatch(e: StudentEvent)
      requires Valid()
      modifies this
      ensures Valid()
      ensures !old(Rendered(e)) ==> unchanged(this)
      ensures old(scanStatus) == Success ==> scanStatus == Success && unchanged(this)
      ensures old(Rendered(e)) && e.Scan? && e.text == "" ==> unchanged(this)
      ensures old(Rendered(e)) && e.Scan? && e.text != "" ==>
        (scanStatus == Success <==> Verify(e.text, currentClass, e.now) == Accepted)
      ensures old(Rendered(e)) && e.Scan? && e.text != "" && Verify(e.text, currentClass, e.now) == Accepted ==>
        errorMsg == "" && !cameraOpen
      ensures old(Rendered(e)) && e.Scan? && e.text != "" && Verify(e.text, currentClass, e.now).Rejected? ==>
        scanStatus == Error && errorMsg == Message(Verify(e.text, currentClass, e.now).reason)
        && cameraOpen == old(cameraOpen)
      ensures old(Rendered(e)) && e.CameraFailure? ==>
        scanStatus == Error && errorMsg == CameraErrorMessage && cameraOpen == old(cameraOpen)
      ensures old(Rendered(e)) && e.CameraButton? ==>
        cameraOpen == !old(cameraOpen) && scanStatus == Idle && errorMsg == ""
      ensures expiryMinutes == old(expiryMinutes) && payload == old(payload) && remaining == old(remaining)
    {
      if !Rendered(e) {
        return;
      }
      match e
      case Scan(text, now) => OnScan(text, now);
      case CameraFailure => OnCameraError();
      case CameraButton => ToggleCamera();
    }
  }

  /**
   * A teacher view and a student view of the same class: the code the
   * teacher generates with the default five minutes, scanned by the
   * student within that time, marks the student's attendance.
   */
  method TeacherToStudent(c: string, random: seq<SessionId.byte>, issuedAt: nat, scannedAt: int)
    returns (status: ScanStatus)
    requires c != "" && |random| == SessionId.IdBytes
    requires scannedAt <= issuedAt + 5 * MsPerMinute
    ensures status == Success
  {
    var teacher := new QRAttendanceView(Teacher, Some(c));
    teacher.GenerateQR(issuedAt, random);
    var text := teacher.QrValue();
    VerifyEncoded(teacher.payload.value, scannedAt);
    var student := new QRAttendanceView(Student, Some(c));
    student.ToggleCamera();
    student.OnScan(text, scannedAt);
    status := student.scanStatus;
  }
}
