/** The records of src/types/screentime.ts: one day's screen time for one phone number. */
module ScreenTimeTypes {

  /** One app's usage: `timeSpent` is in minutes, `category` names one of the five categories. */
  datatype AppUsage = AppUsage(name: string, timeSpent: int, category: string)

  /** The five named categories of `categoryBreakdown`, in minutes. */
  datatype CategoryBreakdown = CategoryBreakdown(
    socialMedia: int,
    entertainment: int,
    productivity: int,
    messaging: int,
    other: int)

  datatype ScreenTimeData = ScreenTimeData(
    phoneNumber: string,
    date: string,
    totalScreenTime: int,
    apps: seq<AppUsage>,
    categoryBreakdown: CategoryBreakdown)

  /** The category names, in the order the record literals list them. */
  const CategoryNames: seq<string> := ["Social Media", "Entertainment", "Productivity", "Messaging", "Other"]

  /** `Object.entries(categoryBreakdown)`: name and minutes, in declaration order. */
  function Entries(b: CategoryBreakdown): (e: seq<(string, int)>)
    ensures |e| == 5
    ensures forall i :: 0 <= i < 5 ==> e[i].0 == CategoryNames[i]
    ensures e[0].1 == b.socialMedia && e[1].1 == b.entertainment && e[2].1 == b.productivity
    ensures e[3].1 == b.messaging && e[4].1 == b.other
  {
    [("Social Media", b.socialMedia), ("Entertainment", b.entertainment),
     ("Productivity", b.productivity), ("Messaging", b.messaging), ("Other", b.other)]
  }

  function CategorySum(b: CategoryBreakdown): int
  {
    b.socialMedia + b.entertainment + b.productivity + b.messaging + b.other
  }

  /** Total minutes of the apps in `apps`. */
  function TimeSpentSum(apps: seq<AppUsage>): int
  {
    if apps == [] then 0 else apps[0].timeSpent + TimeSpentSum(apps[1..])
  }

  /** Total minutes of the apps in `apps` whose category is `category`. */
  function TimeSpentIn(apps: seq<AppUsage>, category: string): int
  {
    if apps == [] then 0
    else (if apps[0].category == category then apps[0].timeSpent else 0) + TimeSpentIn(apps[1..], category)
  }

  /**
   * The arithmetic a record's numbers agree on: the categories and the apps
   * both add up to the total, and each category is the sum of its apps.
   */
  ghost predicate Consistent(d: ScreenTimeData)
  {
    && CategorySum(d.categoryBreakdown) == d.totalScreenTime
    && TimeSpentSum(d.apps) == d.totalScreenTime
    && forall i :: 0 <= i < 5 ==>
         Entries(d.categoryBreakdown)[i].1 == TimeSpentIn(d.apps, CategoryNames[i])
  }
}
