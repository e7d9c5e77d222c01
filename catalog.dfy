/** The static devotional catalog and the weekday alphabet of the alarm app.
    Both are fixed tables that nothing changes at run time. */
module Catalog {
  import opened Wrappers

  /** One catalog entry: identity, Tamil text, reference, theme label and accent colour. */
  datatype Verse = Verse(id: int, tamil: string, reference: string, theme: string, color: string)

  /** The ten verses, in display order. */
  const Verses: seq<Verse> := [
    Verse(1,
          "கர்த்தர் உங்களை ஆசீர்வதிப்பாராக; கர்த்தர் தம்முடைய முகத்தை உங்கள்மேல் பிரகாசிக்கப்பண்ணி, உங்களுக்கு அருள்புரிவாராக.",
          "எண்ணாகமம் 6:24-25", "ஆசீர்வாதம்", "#FFD700"),
    Verse(2,
          "என் தேவன் தமது ஐசுவரியத்தின்படியே கிறிஸ்து இயேசுவிலுள்ள மகிமையிலே உங்கள் குறைவையெல்லாம் நிறைவாக்குவார்.",
          "பிலிப்பியர் 4:19", "போஷிப்பு", "#FFA500"),
    Verse(3,
          "உன் இருதயப்பூர்வமாய்க் கர்த்தரில் நம்பிக்கையாயிரு; உன் சொந்த விவேகத்தின்மேல் சாயாதே. உன் வழிகளிலெல்லாம் அவரை நினை; அவர் உன் பாதைகளை செவ்வைப்படுத்துவார்.",
          "நீதிமொழிகள் 3:5-6", "வழிநடத்துதல்", "#FFB347"),
    Verse(4,
          "தேவன் நமக்கு அடைக்கலமும் பலமுமாயிருக்கிறார்; இக்கட்டான காலங்களில் அவர் உதவி என்றும் கிடைக்கும்.",
          "சங்கீதம் 46:1", "பாதுகாப்பு", "#DAA520"),
    Verse(5,
          "கர்த்தர் என் மேய்ப்பர்; எனக்கு குறைவுண்டாகாது. அவர் என்னை பசும்புல் வெளிகளில் படுக்கப்பண்ணுகிறார்; அமர்ந்த தண்ணீர்களண்டையில் என்னை நடத்துகிறார்.",
          "சங்கீதம் 23:1-2", "ஆறுதல்", "#C5A028"),
    Verse(6,
          "இதோ, நான் உன்னோடிருக்கிறேன்; நீ போகிற இடமெங்கும் உன்னைக் காப்பாற்றி, இந்தத் தேசத்திற்கு உன்னை மறுபடியும் திரும்பி வரப்பண்ணுவேன்.",
          "ஆதியாகமம் 28:15", "தேவசாட்சி", "#E8C84A"),
    Verse(7,
          "என்னிடத்தில் வருகிற எவனையும் நான் புறம்பே தள்ளுவதில்லை.",
          "யோவான் 6:37", "ஏற்றுக்கொள்ளுதல்", "#F4C430"),
    Verse(8,
          "என்னைப் பலப்படுத்துகிற கிறிஸ்துவினாலே எல்லாவற்றையும் செய்யக்கூடும்.",
          "பிலிப்பியர் 4:13", "வல்லமை", "#FFD700"),
    Verse(9,
          "அவர் நம்முடைய எல்லா அக்கிரமங்களையும் மன்னித்து, நம்முடைய எல்லா வியாதிகளையும் சொஸ்தமாக்குகிறவர்.",
          "சங்கீதம் 103:3", "சுகமளிப்பு", "#FFA040"),
    Verse(10,
          "கர்த்தர் சொல்லுகிறார்: நான் உங்களுக்கு நினைத்திருக்கிற நினைவுகள் நலமான நினைவுகளே, தீமையான நினைவுகளல்ல; உங்களுக்கு முன்னும் நம்பிக்கையும் கொடுக்கும்படி நினைத்திருக்கிறேன்.",
          "எரேமியா 29:11", "நம்பிக்கை", "#FFCC44")
  ]

  /** The seven weekday chips, Sunday first. */
  const Days: seq<string> := ["ஞா", "தி", "ஸோ", "செ", "பு", "வி", "ச"]

  /** Entry i of the catalog has identity i + 1, so identities are 1..10 and distinct. */
  lemma CatalogIds()
    ensures |Verses| == 10
    ensures forall i :: 0 <= i < |Verses| ==> Verses[i].id == i + 1
  {
  }

  /** The position of the first verse of `vs` whose identity equals `id`
      (`Array.prototype.find` with strict equality); an absent `id` equals
      no identity. */
  function FindVerse(vs: seq<Verse>, id: Option<int>): (r: Option<nat>)
    ensures r.None? <==> forall i :: 0 <= i < |vs| ==> id != Some(vs[i].id)
    ensures r.Some? ==> r.value < |vs| && id == Some(vs[r.value].id)
                        && forall j :: 0 <= j < r.value ==> id != Some(vs[j].id)
  {
    if vs == [] then None
    else if id == Some(vs[0].id) then Some(0)
    else
      var r := FindVerse(vs[1..], id);
      assert forall i :: 1 <= i < |vs| ==> vs[i] == vs[1..][i - 1];
      if r.Some? then Some(r.value + 1) else None
  }

  /** The catalog lookup used when an alarm fires: the verse with that identity,
      falling back to the first catalog entry. */
  function VerseOrFirst(id: Option<int>): Verse
  {
    match FindVerse(Verses, id)
    case Some(i) => Verses[i]
    case None => Verses[0]
  }

  /** In a list numbered 1, 2, 3, ... the lookup finds position id - 1 for an
      identity in range and nothing otherwise. */
  lemma FindInNumbered(vs: seq<Verse>, id: Option<int>)
    requires forall i :: 0 <= i < |vs| ==> vs[i].id == i + 1
    ensures id.Some? && 1 <= id.value <= |vs| ==> FindVerse(vs, id) == Some(id.value - 1)
    ensures !(id.Some? && 1 <= id.value <= |vs|) ==> FindVerse(vs, id).None?
  {
    if id.Some? && 1 <= id.value <= |vs| {
      assert id == Some(vs[id.value - 1].id);
    }
  }

  /** An identity in 1..10 finds its own entry; any other identity, or none,
      falls back to the first entry. */
  lemma VerseOrFirstSpec(id: Option<int>)
    ensures id.Some? && 1 <= id.value <= 10 ==> VerseOrFirst(id) == Verses[id.value - 1]
    ensures !(id.Some? && 1 <= id.value <= 10) ==> VerseOrFirst(id) == Verses[0]
  {
    CatalogIds();
    FindInNumbered(Verses, id);
  }
}
