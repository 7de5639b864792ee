TestResult.DisplayName,TestResult.Outcome,TestResult.Duration,TestResult.ResourceCount,RandomSeed
Sniff.ContentSpec (well-formedness),Passed,00:00:00.8454403,1502019,5
Sniff.ContentSpecEarlierAttemptsFailed (well-formedness),Passed,00:00:00.3346162,165910,5
Sniff.ContentSpecEarlierAttemptsFailed (correctness),Passed,00:00:00.1048765,172298,5
