/** Fixed configuration of the focus ledger: the six life domains, the shop
    catalog, the focus stages, the five self-assessment scores, and the
    calendar arithmetic that stands in for the program's date strings. */
module Config {

  datatype Option<T> = None | Some(value: T)

  /** A user is identified by the name they logged in with. */
  type UserId = string

  /** Timestamps are whole seconds on the local clock; a calendar day is the
      number of whole days since the clock's origin (what "%Y-%m-%d" names). */
  const SecondsPerDay: int := 86400

  /** The trailing report window, timedelta(days=7), in seconds. */
  const WeekSeconds: int := 7 * SecondsPerDay

  /** One domain level per sixty accumulated minutes. */
  const MinutesPerLevel: int := 60

  /** The number of rows the task journal query reads (LIMIT 10). */
  const RecentLimit: nat := 10

  /** The calendar day a timestamp falls on. */
  function Day(t: int): (d: int)
    ensures d * SecondsPerDay <= t < d * SecondsPerDay + SecondsPerDay
  {
    t / SecondsPerDay
  }

  /** Python's `int(x / 60)`: the quotient truncated toward zero, which is
      the floor for non-negative x and the ceiling for negative x. */
  function Div60(x: int): (q: int)
    ensures 0 <= x ==> 0 <= q && 60 * q <= x < 60 * q + 60
    ensures x < 0 ==> q <= 0 && 60 * q - 60 < x <= 60 * q
  {
    if x >= 0 then x / 60 else -((-x) / 60)
  }

  /** One life domain: its key, display icon and description. */
  datatype Domain = Domain(name: string, icon: string, desc: string)

  /** THEME_CONFIG, in its declaration order. */
  function Themes(): (themes: seq<Domain>)
    ensures |themes| == 6
    ensures forall i, j :: 0 <= i < j < |themes| ==> themes[i].name != themes[j].name
  {
    [ Domain("核心能力", "🧠", "专业 / 算法"),
      Domain("创新实践", "🎄", "项目 / 代码"),
      Domain("终身探索", "🔭", "阅读 / 新知"),
      Domain("身心健康", "🦌", "运动 / 睡眠"),
      Domain("社会连接", "❄️", "人脉 / 演讲"),
      Domain("审美修养", "🎨", "艺术 / 设计") ]
  }

  /** THEME_CONFIG.keys(): the six domain keys, pairwise distinct. */
  function ThemeKeys(): (keys: seq<string>)
    ensures |keys| == |Themes()|
    ensures forall i :: 0 <= i < |keys| ==> keys[i] == Themes()[i].name
    ensures forall i, j :: 0 <= i < j < |keys| ==> keys[i] != keys[j]
  {
    var themes := Themes();
    seq(|themes|, i requires 0 <= i < |themes| => themes[i].name)
  }

  /** One purchasable good: name, price in focus minutes, icon. */
  datatype Good = Good(name: string, price: int, icon: string)

  /** DEFAULT_GOODS, in display order; no price is negative. */
  function Catalog(): (goods: seq<Good>)
    ensures |goods| == 6
    ensures forall i :: 0 <= i < |goods| ==> goods[i].price >= 0
  {
    [ Good("🥤 快乐水", 60, "🥤"),
      Good("🎮 游戏时光", 120, "🎮"),
      Good("🎁 圣诞盲盒", 180, "🎁"),
      Good("🛌 赖床券", 200, "🛌"),
      Good("🍰 生日蛋糕", 0, "🎂"),
      Good("✈️ 旅行基金", 5000, "✈️") ]
  }

  /** The input-process-output stage a focus session is filed under. */
  datatype Stage = Input | Process | Output

  /** The five self-assessment scores, in the order the program stores them. */
  datatype Scores = Scores(emotion: int, cognition: int, awareness: int, motivation: int, social: int)

  /** The scores attached to every completed focus session. */
  const DefaultScores: Scores := Scores(5, 5, 5, 5, 5)
}
