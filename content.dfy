/**
 * The storefront's hero and about copy. After the site-content list has been
 * fetched and parsed, the first entry whose section is "hero" supplies the
 * hero title and subtitle and the first whose section is "about" supplies the
 * about text; a missing entry, or a failed fetch, keeps what was shown before.
 * Each displayed text falls back to fixed copy while its stored value is empty.
 */
module Content {
  import opened Options

  /** One entry of the site-content list. */
  datatype ContentSection = ContentSection(
    id: int,
    section: string,
    title: string,
    subtitle: string,
    content: string)

  datatype HeroContent = HeroContent(title: string, subtitle: string)
  datatype AboutContent = AboutContent(content: string)

  /** What the page holds before any content has loaded. */
  const InitialHero: HeroContent := HeroContent("", "")
  const InitialAbout: AboutContent := AboutContent("")

  const HeroSection: string := "hero"
  const AboutSection: string := "about"

  const DefaultHeroTitle: string := "Сыроварня SOBKO"
  const DefaultHeroSubtitle: string := "Премиальные сыры ручной работы от мастеров своего дела"
  const DefaultAbout: string :=
    "Сыроварня SOBKO — это семейное предприятие, где традиции сыроделия передаются из поколения в поколение. "
    + "Мы используем только натуральное молоко от проверенных фермеров и создаём сыры по классическим рецептам "
    + "с соблюдением всех технологий. Каждый наш сыр — это результат кропотливого труда и любви к своему делу."

  /** The first entry of the list whose section is `name`, if any. */
  function FindSection(data: seq<ContentSection>, name: string): (r: Option<ContentSection>)
    ensures r.None? <==> forall j :: 0 <= j < |data| ==> data[j].section != name
    ensures r.Some? ==> exists k :: (0 <= k < |data| && data[k] == r.value && data[k].section == name &&
      forall j :: 0 <= j < k ==> data[j].section != name)
  {
    if data == [] then None
    else if data[0].section == name then Some(data[0])
    else
      var r := FindSection(data[1..], name);
      assert forall j :: 1 <= j < |data| ==> data[j] == data[1..][j - 1];
      r
  }

  /** The hero and about state the page holds. */
  datatype PageContent = PageContent(hero: HeroContent, about: AboutContent)

  /**
   * The hero and about state after a content load; `None` is a load that
   * threw. A failed load keeps everything; otherwise each part either stays
   * as it was or is copied from an entry of its own section.
   */
  function LoadContent(prev: PageContent, response: Option<seq<ContentSection>>): (r: PageContent)
    ensures response.None? ==> r == prev
    ensures response.Some? ==> r.hero == prev.hero || exists k :: (0 <= k < |response.value| &&
      response.value[k].section == HeroSection &&
      r.hero == HeroContent(response.value[k].title, response.value[k].subtitle))
    ensures response.Some? ==> r.about == prev.about || exists k :: (0 <= k < |response.value| &&
      response.value[k].section == AboutSection && r.about == AboutContent(response.value[k].content))
  {
    match response
    case None => prev
    case Some(data) =>
      var hero := match FindSection(data, HeroSection)
        case Some(h) => HeroContent(h.title, h.subtitle)
        case None => prev.hero;
      var about := match FindSection(data, AboutSection)
        case Some(a) => AboutContent(a.content)
        case None => prev.about;
      PageContent(hero, about)
  }

  /** The page's logical-or fallback on text: an empty stored text shows the fixed copy instead. */
  function OrDefault(stored: string, fallback: string): (shown: string)
    requires fallback != []
    ensures shown != []
    ensures stored != [] ==> shown == stored
    ensures stored == [] ==> shown == fallback
  {
    if stored == [] then fallback else stored
  }

  /** The hero heading: the stored title, or the default title while none is stored. */
  function DisplayedTitle(hero: HeroContent): (shown: string)
    ensures shown != []
    ensures shown == hero.title || (hero.title == [] && shown == DefaultHeroTitle)
  {
    OrDefault(hero.title, DefaultHeroTitle)
  }

  /** The hero tagline: the stored subtitle, or the default subtitle while none is stored. */
  function DisplayedSubtitle(hero: HeroContent): (shown: string)
    ensures shown != []
    ensures shown == hero.subtitle || (hero.subtitle == [] && shown == DefaultHeroSubtitle)
  {
    OrDefault(hero.subtitle, DefaultHeroSubtitle)
  }

  /** The about text: the stored text, or the default about text while none is stored. */
  function DisplayedAbout(about: AboutContent): (shown: string)
    ensures shown != []
    ensures shown == about.content || (about.content == [] && shown == DefaultAbout)
  {
    OrDefault(about.content, DefaultAbout)
  }

  /** The hero copy comes from the first "hero" entry of a loaded list. */
  lemma LoadContentHero(prev: PageContent, data: seq<ContentSection>, k: nat)
    requires k < |data| && data[k].section == HeroSection
    requires forall j :: 0 <= j < k ==> data[j].section != HeroSection
    ensures LoadContent(prev, Some(data)).hero == HeroContent(data[k].title, data[k].subtitle)
  {
    var r := FindSection(data, HeroSection);
    assert r.Some?;
    var k' :| 0 <= k' < |data| && data[k'] == r.value && data[k'].section == HeroSection &&
      forall j :: 0 <= j < k' ==> data[j].section != HeroSection;
    assert k' == k;
  }

  /** The about copy comes from the first "about" entry of a loaded list. */
  lemma LoadContentAbout(prev: PageContent, data: seq<ContentSection>, k: nat)
    requires k < |data| && data[k].section == AboutSection
    requires forall j :: 0 <= j < k ==> data[j].section != AboutSection
    ensures LoadContent(prev, Some(data)).about == AboutContent(data[k].content)
  {
    var r := FindSection(data, AboutSection);
    assert r.Some?;
    var k' :| 0 <= k' < |data| && data[k'] == r.value && data[k'].section == AboutSection &&
      forall j :: 0 <= j < k' ==> data[j].section != AboutSection;
    assert k' == k;
  }

  /** A list with no "hero" (or no "about") entry keeps the previous hero (or about) state. */
  lemma LoadContentMissing(prev: PageContent, data: seq<ContentSection>)
    ensures (forall j :: 0 <= j < |data| ==> data[j].section != HeroSection) ==>
      LoadContent(prev, Some(data)).hero == prev.hero
    ensures (forall j :: 0 <= j < |data| ==> data[j].section != AboutSection) ==>
      LoadContent(prev, Some(data)).about == prev.about
  {
  }

  /** Before any content exists, the page shows the fixed default copy. */
  lemma InitialShowsDefaults()
    ensures DisplayedTitle(InitialHero) == DefaultHeroTitle
    ensures DisplayedSubtitle(InitialHero) == DefaultHeroSubtitle
    ensures DisplayedAbout(InitialAbout) == DefaultAbout
  {
  }

  /** Whatever was loaded, no displayed hero or about text is ever empty. */
  lemma DisplayedNeverEmpty(page: PageContent)
    ensures DisplayedTitle(page.hero) != []
    ensures DisplayedSubtitle(page.hero) != []
    ensures DisplayedAbout(page.about) != []
  {
  }
}
