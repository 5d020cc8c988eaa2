/** The decisions behind the e-mail templates of emailTemplates.js: the
    urgency classification and its colour and icon, the reporter's contact
    block, the attachment line, the subject, the WhatsApp link and the
    password-reset link. The HTML and text bodies themselves are not
    modelled; `FRONTEND_URL` is a parameter. */
module EmailTemplates {
  import opened Common
  import opened Text

  const High := "HIGH"
  const Medium := "MEDIUM"
  const Low := "LOW"

  /** The two categories that are always urgent (emailTemplates.js:546-549). */
  const UrgentCategories: seq<string> :=
    ["Keamanan dan Ketertiban", "Infrastruktur (Jalan, Jembatan, dll.)"]

  /** `urgentCategories.includes(kategori)`: strict equality, so only a
      string can match. */
  predicate IsUrgent(kategori: Value) {
    kategori.Str? && kategori.s in UrgentCategories
  }

  /** `getUrgencyLevel(kategori, klasifikasi)` */
  function UrgencyLevel(kategori: Value, klasifikasi: Value): (level: string)
    ensures level == High <==> IsUrgent(kategori)
    ensures level == Medium <==> !IsUrgent(kategori) && klasifikasi == Str("pengaduan")
    ensures level == Low <==> !IsUrgent(kategori) && klasifikasi != Str("pengaduan")
  {
    if IsUrgent(kategori) then High
    else if klasifikasi == Str("pengaduan") then Medium
    else Low
  }

  /** `getUrgencyColor(level)`: each known level has its own colour, and
      any level it does not know gets grey. */
  function UrgencyColor(level: string): (color: string)
    ensures color == "#dc2626" <==> level == High
    ensures color == "#f59e0b" <==> level == Medium
    ensures color == "#10b981" <==> level == Low
    ensures color == "#6b7280" <==> level != High && level != Medium && level != Low
  {
    match level
    case "HIGH" => "#dc2626"
    case "MEDIUM" => "#f59e0b"
    case "LOW" => "#10b981"
    case _ => "#6b7280"
  }

  /** `getUrgencyIcon(level)`: likewise one icon per known level and the
      clipboard for anything else. */
  function UrgencyIcon(level: string): (icon: string)
    ensures icon == "\U{1F6A8}" <==> level == High
    ensures icon == "\U{26A0}\U{FE0F}" <==> level == Medium
    ensures icon == "\U{2139}\U{FE0F}" <==> level == Low
    ensures icon == "\U{1F4CB}" <==> level != High && level != Medium && level != Low
  {
    match level
    case "HIGH" => "\U{1F6A8}"
    case "MEDIUM" => "\U{26A0}\U{FE0F}"
    case "LOW" => "\U{2139}\U{FE0F}"
    case _ => "\U{1F4CB}"
  }

  /** `nama === 'Anonim'` */
  predicate IsAnonymous(nama: Value) {
    nama == Str("Anonim")
  }

  /** `${v || 'Tidak diisi'}` */
  function OrNotFilled(v: Value): (r: string)
    ensures Truthy(v) ==> r == ToString(v)
    ensures !Truthy(v) ==> r == "Tidak diisi"
    ensures r != ""
  {
    if Truthy(v) then ToString(v) else "Tidak diisi"
  }

  /** The contact block (emailTemplates.js:62-65). */
  function ContactInfo(nama: Value, email: Value, whatsapp: Value): string {
    if IsAnonymous(nama) then "WhatsApp: " + OrNotFilled(whatsapp)
    else ("Nama: " + ToString(nama) + "\nEmail: " + OrNotFilled(email)
      + "\nWhatsApp: " + OrNotFilled(whatsapp))
  }

  /** The contact block always ends with the WhatsApp number (or
      "Tidak diisi"); it names the reporter and shows the e-mail exactly
      when the reporter is not anonymous, and it is the WhatsApp line
      alone otherwise. */
  lemma ContactInfoShape(nama: Value, email: Value, whatsapp: Value)
    ensures var c := ContactInfo(nama, email, whatsapp);
      var w := OrNotFilled(whatsapp);
      |w| <= |c| && c[|c| - |w|..] == w
    ensures StartsWith(ContactInfo(nama, email, whatsapp), "Nama: ") <==> !IsAnonymous(nama)
    ensures !IsAnonymous(nama) ==>
      Contains(ContactInfo(nama, email, whatsapp), ToString(nama))
      && Contains(ContactInfo(nama, email, whatsapp), OrNotFilled(email))
    ensures IsAnonymous(nama) ==>
      ContactInfo(nama, email, whatsapp) == "WhatsApp: " + OrNotFilled(whatsapp)
  {
    var c := ContactInfo(nama, email, whatsapp);
    var w := OrNotFilled(whatsapp);
    if IsAnonymous(nama) {
      assert c[0] == 'W';
      assert c[|c| - |w|..] == w;
    } else {
      NamedContact(ToString(nama), OrNotFilled(email), w);
    }
  }

  lemma NamedContact(n: string, e: string, w: string)
    ensures var c := "Nama: " + n + "\nEmail: " + e + "\nWhatsApp: " + w;
      && |w| <= |c| && c[|c| - |w|..] == w
      && StartsWith(c, "Nama: ") && Contains(c, n) && Contains(c, e)
  {
    var withName := "Nama: " + n;
    var withEmail := withName + "\nEmail: " + e;
    var c := withEmail + "\nWhatsApp: " + w;
    assert c[..6] == withName[..6];
    ContainsSuffix("Nama: ", n);
    ContainsAppend(withName, n, "\nEmail: " + e + "\nWhatsApp: " + w);
    ContainsSuffix(withName + "\nEmail: ", e);
    ContainsAppend(withEmail, e, "\nWhatsApp: " + w);
    assert withName + ("\nEmail: " + e + "\nWhatsApp: " + w) == c;
    assert withEmail + ("\nWhatsApp: " + w) == c;
    assert c[|c| - |w|..] == w;
  }

  /** The attachment line (emailTemplates.js:67-69). */
  function AttachmentInfo(lampiranInfo: Value): (r: string)
    ensures r != "" <==> Truthy(lampiranInfo)
    ensures Truthy(lampiranInfo) ==> Contains(r, ToString(lampiranInfo))
  {
    if Truthy(lampiranInfo) then
      var head := "\n\n\U{1F4CE} Lampiran: ";
      var r := head + ToString(lampiranInfo);
      assert r[|head|..|head| + |ToString(lampiranInfo)|] == ToString(lampiranInfo);
      ContainsAt(r, ToString(lampiranInfo), |head|);
      r
    else ""
  }

  /** `status = 'pending'` in the destructuring: the default applies only
      when the property is missing (or undefined), not when it is null or
      empty. */
  function Status(data: Record): (r: Value)
    ensures Get(data, "status") == Undefined ==> r == Str("pending")
    ensures Get(data, "status") != Undefined ==> r == Get(data, "status")
    ensures r != Undefined
  {
    if Get(data, "status") == Undefined then Str("pending") else Get(data, "status")
  }

  /** The notification subject (emailTemplates.js:75). */
  function Subject(icon: string, klasifikasi: string, judul: Value): string {
    icon + " " + Upper(klasifikasi) + " BARU: " + ToString(judul)
  }

  /** The subject starts with the icon and ends with the title, so it
      always contains the title. */
  lemma SubjectShowsTitle(icon: string, klasifikasi: string, judul: Value)
    ensures StartsWith(Subject(icon, klasifikasi, judul), icon)
    ensures var s := Subject(icon, klasifikasi, judul);
      |ToString(judul)| <= |s| && s[|s| - |ToString(judul)|..] == ToString(judul)
    ensures Contains(Subject(icon, klasifikasi, judul), ToString(judul))
  {
    var s := Subject(icon, klasifikasi, judul);
    var j := ToString(judul);
    var head := icon + " " + Upper(klasifikasi) + " BARU: ";
    assert s == head + j;
    assert s[..|icon|] == icon;
    assert s[|head|..|head| + |j|] == j;
    ContainsAt(s, j, |head|);
  }

  /** The characters `/[^0-9+]/g` keeps. */
  predicate IsDialable(c: char) {
    IsDigit(c) || c == '+'
  }

  /** `s.replace(/[^0-9+]/g, '')` */
  function KeepDialable(s: string): (r: string)
    ensures |r| <= |s|
    ensures forall i :: 0 <= i < |r| ==> IsDialable(r[i])
  {
    if |s| == 0 then ""
    else (if IsDialable(s[0]) then [s[0]] else []) + KeepDialable(s[1..])
  }

  /** Exactly the digits and plus signs survive, in their order. */
  lemma {:induction false} KeepDialableKeeps(s: string)
    ensures forall c :: c in KeepDialable(s) <==> c in s && IsDialable(c)
    ensures (forall i :: 0 <= i < |s| ==> IsDialable(s[i])) ==> KeepDialable(s) == s
  {
    if |s| > 0 {
      KeepDialableKeeps(s[1..]);
      assert s == [s[0]] + s[1..];
    }
  }

  /** The number in the WhatsApp link (emailTemplates.js:321): only digits
      and "+" are kept, then one leading "0" becomes "+62". */
  function NormalizeWhatsApp(s: string): string {
    var k := KeepDialable(s);
    if |k| > 0 && k[0] == '0' then "+62" + k[1..] else k
  }

  /** The normalised number holds nothing but digits and "+", never starts
      with "0", starts with "+62" when the cleaned number started with
      "0", and normalising it again changes nothing. */
  lemma NormalizeWhatsAppShape(s: string)
    ensures forall i :: 0 <= i < |NormalizeWhatsApp(s)| ==> IsDialable(NormalizeWhatsApp(s)[i])
    ensures NormalizeWhatsApp(s) == [] || NormalizeWhatsApp(s)[0] != '0'
    ensures StartsWith(KeepDialable(s), "0") ==> StartsWith(NormalizeWhatsApp(s), "+62")
    ensures !StartsWith(KeepDialable(s), "0") ==> NormalizeWhatsApp(s) == KeepDialable(s)
    ensures NormalizeWhatsApp(NormalizeWhatsApp(s)) == NormalizeWhatsApp(s)
  {
    var n := NormalizeWhatsApp(s);
    var k := KeepDialable(s);
    assert StartsWith(k, "0") <==> |k| > 0 && k[0] == '0' by {
      if |k| > 0 { assert k[..1] == [k[0]]; }
    }
    if |k| > 0 && k[0] == '0' {
      assert n == "+62" + k[1..];
      assert n[..3] == "+62";
      forall i | 0 <= i < |n| ensures IsDialable(n[i]) {
        if i >= 3 { assert n[i] == k[i - 2]; }
      }
    } else {
      assert n == k;
    }
    KeepDialableKeeps(n);
    assert KeepDialable(n) == n;
  }

  /** The text of the link's message after the reporter's name. */
  const WhatsAppGreeting :=
    ",%0A%0AKami telah menerima laporan Anda dan sedang dalam proses penanganan.%0A%0ATerima kasih."

  /** The "Hubungi Pelapor" link target (emailTemplates.js:321), present
      only for a non-anonymous reporter with a truthy WhatsApp value;
      `whatsapp.replace` on a non-string throws. */
  function WhatsAppLink(nama: Value, whatsapp: Value): (r: Result<Option<string>>)
    ensures r.Thrown? <==> !IsAnonymous(nama) && Truthy(whatsapp) && !whatsapp.Str?
    ensures r == Ok(None) <==> IsAnonymous(nama) || !Truthy(whatsapp)
    ensures r.Ok? && r.value.Some? ==>
      StartsWith(r.value.value, "https://wa.me/" + NormalizeWhatsApp(whatsapp.s) + "?text=Halo ")
  {
    if IsAnonymous(nama) || !Truthy(whatsapp) then Ok(None)
    else if !whatsapp.Str? then Thrown(TypeError("whatsapp"))
    else
      var head := "https://wa.me/" + NormalizeWhatsApp(whatsapp.s) + "?text=Halo ";
      var link := head + ToString(nama) + WhatsAppGreeting;
      assert link[..|head|] == head;
      Ok(Some(link))
  }

  /** What `createPengaduanNotificationTemplate` decides; the bodies are
      built around these. */
  datatype Notification = Notification(
    subject: string,
    contact: string,
    attachment: string,
    urgency: string,
    color: string,
    status: Value,
    whatsappLink: Option<string>)

  /** `createPengaduanNotificationTemplate(pengaduanData)`: `None` is null
      or undefined data. A present title that is not a string fails the
      debug logging's `.trim()`, destructuring nothing fails next, then
      `klasifikasi.toUpperCase()`, then the WhatsApp link. */
  function NotificationTemplate(data: Option<Record>): (r: Result<Notification>)
    ensures data.None? ==> r == Thrown(TypeError("pengaduanData"))
    ensures data.Some? && Get(data.value, "judul") != Undefined && !Get(data.value, "judul").Str? ==>
      r == Thrown(TypeError("judul"))
    ensures r.Ok? <==>
      data.Some?
      && (Get(data.value, "judul") == Undefined || Get(data.value, "judul").Str?)
      && Get(data.value, "klasifikasi").Str?
      && WhatsAppLink(Get(data.value, "nama"), Get(data.value, "whatsapp")).Ok?
    ensures r.Ok? ==>
      var d := data.value;
      && Contains(r.value.subject, ToString(Get(d, "judul")))
      && r.value.urgency == UrgencyLevel(Get(d, "kategori"), Get(d, "klasifikasi"))
      && r.value.color == UrgencyColor(r.value.urgency)
      && StartsWith(r.value.subject, UrgencyIcon(r.value.urgency))
      && (r.value.attachment != "" <==> Truthy(Get(d, "lampiran_info")))
      && (r.value.whatsappLink.Some? <==> !IsAnonymous(Get(d, "nama")) && Truthy(Get(d, "whatsapp")))
      && r.value.status == Status(d)
      && r.value.contact == ContactInfo(Get(d, "nama"), Get(d, "email"), Get(d, "whatsapp"))
      && r.value.attachment == AttachmentInfo(Get(d, "lampiran_info"))
      && r.value.whatsappLink == WhatsAppLink(Get(d, "nama"), Get(d, "whatsapp")).value
  {
    if data.None? then Thrown(TypeError("pengaduanData"))
    else
      var d := data.value;
      var judul := Get(d, "judul");
      if judul != Undefined && !judul.Str? then Thrown(TypeError("judul"))
      else if !Get(d, "klasifikasi").Str? then Thrown(TypeError("klasifikasi"))
      else
        var urgency := UrgencyLevel(Get(d, "kategori"), Get(d, "klasifikasi"));
        var icon := UrgencyIcon(urgency);
        var subject := Subject(icon, Get(d, "klasifikasi").s, judul);
        SubjectShowsTitle(icon, Get(d, "klasifikasi").s, judul);
        var link := WhatsAppLink(Get(d, "nama"), Get(d, "whatsapp"));
        if link.Thrown? then Thrown(link.error)
        else
          Ok(Notification(
            subject,
            ContactInfo(Get(d, "nama"), Get(d, "email"), Get(d, "whatsapp")),
            AttachmentInfo(Get(d, "lampiran_info")),
            urgency,
            UrgencyColor(urgency),
            Status(d),
            link.value))
  }

  /** What a successful notification shows of the report: the contact
      block ends with the WhatsApp number (or "Tidak diisi") and is that
      line alone for an anonymous reporter; a named reporter's block shows
      the name and the e-mail; the attachment line holds `lampiran_info`
      when it is truthy; and the link dials the normalised number. */
  lemma NotificationShows(d: Record)
    requires NotificationTemplate(Some(d)).Ok?
    ensures var n := NotificationTemplate(Some(d)).value;
      var w := OrNotFilled(Get(d, "whatsapp"));
      && |w| <= |n.contact| && n.contact[|n.contact| - |w|..] == w
      && (IsAnonymous(Get(d, "nama")) ==> n.contact == "WhatsApp: " + w)
      && (!IsAnonymous(Get(d, "nama")) ==>
            Contains(n.contact, ToString(Get(d, "nama"))) && Contains(n.contact, OrNotFilled(Get(d, "email"))))
      && (Truthy(Get(d, "lampiran_info")) ==> Contains(n.attachment, ToString(Get(d, "lampiran_info"))))
      && (n.whatsappLink.Some? ==>
            StartsWith(n.whatsappLink.value,
              "https://wa.me/" + NormalizeWhatsApp(Get(d, "whatsapp").s) + "?text=Halo "))
  {
    ContactInfoShape(Get(d, "nama"), Get(d, "email"), Get(d, "whatsapp"));
  }

  const DefaultFrontend := "https://moncongloebulu.com"
  const ResetPath := "/#/admin/reset-password?token="

  /** The reset link of `createPasswordResetTemplate` (emailTemplates.js:588). */
  function ResetLink(frontendUrl: Option<string>, token: string): string {
    EnvOr(frontendUrl, DefaultFrontend) + ResetPath + token
  }

  /** The token is inserted verbatim at the end of the link, so it can be
      read back off the link; the site is `FRONTEND_URL` when that is set
      and non-empty, the public site otherwise. */
  lemma ResetLinkCarriesToken(frontendUrl: Option<string>, token: string)
    ensures var l := ResetLink(frontendUrl, token);
      |token| <= |l| && l[|l| - |token|..] == token
      && l[..|l| - |token|] == EnvOr(frontendUrl, DefaultFrontend) + ResetPath
    ensures EnvSet(frontendUrl) ==> StartsWith(ResetLink(frontendUrl, token), frontendUrl.value)
    ensures !EnvSet(frontendUrl) ==> StartsWith(ResetLink(frontendUrl, token), DefaultFrontend)
    ensures Contains(ResetLink(frontendUrl, token), ResetPath + token)
  {
    var l := ResetLink(frontendUrl, token);
    var site := EnvOr(frontendUrl, DefaultFrontend);
    assert l == site + (ResetPath + token);
    assert l[..|site|] == site;
    assert l[|site|..|site| + |ResetPath + token|] == ResetPath + token;
    ContainsAt(l, ResetPath + token, |site|);
  }
}
